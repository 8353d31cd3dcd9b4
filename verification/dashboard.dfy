/** Dashboard figures (components/Dashboard.tsx): status tallies, the pie
    chart slices, the active-client count and the recent-activity list. */
module DashboardStats {
  import opened Types
  import ClientList

  /** The status of every project, in list order. */
  function Statuses(ps: seq<Project>): (r: seq<string>)
    ensures |r| == |ps| && forall i | 0 <= i < |ps| :: r[i] == ps[i].status
  {
    seq(|ps|, i requires 0 <= i < |ps| => ps[i].status)
  }

  /** Number of projects whose status is exactly `status`: the number of
      times that text occurs among the statuses. */
  function CountStatus(ps: seq<Project>, status: string): (n: nat)
    ensures n == multiset(Statuses(ps))[status]
    ensures n <= |ps|
    ensures n == 0 <==> forall p | p in ps :: p.status != status
    decreases |ps|
  {
    if |ps| == 0 then 0
    else
      var init := ps[..|ps| - 1];
      assert forall p | p in init :: p in ps;
      assert ps == init + [ps[|ps| - 1]];
      assert Statuses(ps) == Statuses(init) + [ps[|ps| - 1].status];
      CountStatus(init, status) + (if ps[|ps| - 1].status == status then 1 else 0)
  }

  /** Number of projects with none of the three tallied statuses. */
  function CountOthers(ps: seq<Project>): (n: nat)
    ensures n <= |ps|
    decreases |ps|
  {
    if |ps| == 0 then 0
    else
      var s := ps[|ps| - 1].status;
      CountOthers(ps[..|ps| - 1]) + (if s != Completed && s != AtRisk && s != OnTrack then 1 else 0)
  }

  datatype Stats = Stats(total: nat, completed: nat, atRisk: nat, onTrack: nat)

  function ComputeStats(ps: seq<Project>): Stats {
    Stats(|ps|, CountStatus(ps, Completed), CountStatus(ps, AtRisk), CountStatus(ps, OnTrack))
  }

  /** The Pending slice: everything not tallied. */
  function PendingValue(s: Stats): int {
    s.total - (s.completed + s.atRisk + s.onTrack)
  }

  /** The three tallies and the other statuses partition the list. */
  lemma {:induction false} TalliesPartition(ps: seq<Project>)
    ensures CountStatus(ps, Completed) + CountStatus(ps, AtRisk) + CountStatus(ps, OnTrack) + CountOthers(ps) == |ps|
    decreases |ps|
  {
    if |ps| > 0 {
      TalliesPartition(ps[..|ps| - 1]);
    }
  }

  /** Pending counts every status other than the three tallied ones,
      including unrecognised imported text, and is never negative. */
  lemma PendingCountsOthers(ps: seq<Project>)
    ensures PendingValue(ComputeStats(ps)) == CountOthers(ps)
    ensures PendingValue(ComputeStats(ps)) >= 0
  {
    TalliesPartition(ps);
  }

  datatype Slice = Slice(name: string, value: int, color: string)

  /** The four slices before filtering, in their fixed order. */
  function AllSlices(s: Stats): seq<Slice> {
    [ Slice("Completed", s.completed, "#22c55e"),
      Slice("On Track", s.onTrack, "#3b82f6"),
      Slice("At Risk", s.atRisk, "#ef4444"),
      Slice("Pending", PendingValue(s), "#cbd5e1") ]
  }

  /** Position of a slice name in the chart's fixed order. */
  function SliceRank(name: string): int {
    if name == "Completed" then 0
    else if name == "On Track" then 1
    else if name == "At Risk" then 2
    else if name == "Pending" then 3
    else 4
  }

  /** The slices' names follow the fixed order strictly. */
  predicate RankedInOrder(sl: seq<Slice>) {
    forall i, j | 0 <= i < j < |sl| :: SliceRank(sl[i].name) < SliceRank(sl[j].name)
  }

  /** The slices with a positive value, in their order. */
  function KeepPositive(sl: seq<Slice>): (r: seq<Slice>)
    ensures forall x :: x in r <==> x in sl && x.value > 0
    ensures |r| <= |sl|
    decreases |sl|
  {
    if |sl| == 0 then []
    else (if sl[0].value > 0 then [sl[0]] else []) + KeepPositive(sl[1..])
  }

  /** Filtering works piecewise, so the kept slices keep their order. */
  lemma {:induction false} KeepPositiveAppend(a: seq<Slice>, b: seq<Slice>)
    ensures KeepPositive(a + b) == KeepPositive(a) + KeepPositive(b)
    decreases |a|
  {
    if |a| > 0 {
      var head := if a[0].value > 0 then [a[0]] else [];
      assert (a + b)[0] == a[0];
      assert (a + b)[1..] == a[1..] + b;
      assert KeepPositive(a + b) == head + KeepPositive(a[1..] + b);
      assert KeepPositive(a) == head + KeepPositive(a[1..]);
      KeepPositiveAppend(a[1..], b);
      assert head + (KeepPositive(a[1..]) + KeepPositive(b)) == (head + KeepPositive(a[1..])) + KeepPositive(b);
    } else {
      assert a + b == b;
    }
  }

  /** Every slice of `sl` comes after rank `r` in the fixed order. */
  predicate AllAfter(sl: seq<Slice>, r: int) {
    forall k | 0 <= k < |sl| :: r < SliceRank(sl[k].name)
  }

  /** A slice list is in order when each slice precedes all later ones. */
  lemma RankedCons(x: Slice, rest: seq<Slice>)
    requires AllAfter(rest, SliceRank(x.name)) && RankedInOrder(rest)
    ensures RankedInOrder([x] + rest)
  {
    var r := [x] + rest;
    forall i, j | 0 <= i < j < |r| ensures SliceRank(r[i].name) < SliceRank(r[j].name) {
      assert r[j] == rest[j - 1];
      if i > 0 {
        assert r[i] == rest[i - 1];
      }
    }
  }

  /** The tail of an ordered list is ordered and comes after its head. */
  lemma RankedTail(sl: seq<Slice>)
    requires |sl| > 0 && RankedInOrder(sl)
    ensures RankedInOrder(sl[1..]) && AllAfter(sl[1..], SliceRank(sl[0].name))
  {
    var tail := sl[1..];
    forall i, j | 0 <= i < j < |tail| ensures SliceRank(tail[i].name) < SliceRank(tail[j].name) {
      assert tail[i] == sl[i + 1] && tail[j] == sl[j + 1];
    }
    forall k | 0 <= k < |tail| ensures SliceRank(sl[0].name) < SliceRank(tail[k].name) {
      assert tail[k] == sl[k + 1];
    }
  }

  /** Filtering keeps every slice after a rank that all slices were after. */
  lemma KeepPositiveAfter(sl: seq<Slice>, r: int)
    requires AllAfter(sl, r)
    ensures AllAfter(KeepPositive(sl), r)
  {
    var kept := KeepPositive(sl);
    forall k | 0 <= k < |kept| ensures r < SliceRank(kept[k].name) {
      assert kept[k] in sl;
      var m :| 0 <= m < |sl| && sl[m] == kept[k];
    }
  }

  /** Filtering never breaks the fixed order. */
  lemma {:induction false} KeepPositiveKeepsOrder(sl: seq<Slice>)
    requires RankedInOrder(sl)
    ensures RankedInOrder(KeepPositive(sl))
    decreases |sl|
  {
    if |sl| > 0 {
      RankedTail(sl);
      KeepPositiveKeepsOrder(sl[1..]);
      if sl[0].value > 0 {
        KeepPositiveAfter(sl[1..], SliceRank(sl[0].name));
        RankedCons(sl[0], KeepPositive(sl[1..]));
      } else {
        assert KeepPositive(sl) == [] + KeepPositive(sl[1..]);
      }
    }
  }

  function SumValues(sl: seq<Slice>): int
    decreases |sl|
  {
    if |sl| == 0 then 0 else sl[0].value + SumValues(sl[1..])
  }

  /** The chart data: the slices with a positive value, in fixed order. */
  function ChartData(ps: seq<Project>): (r: seq<Slice>)
    ensures |r| <= 4
    ensures forall x | x in r :: x in AllSlices(ComputeStats(ps)) && x.value > 0
  {
    KeepPositive(AllSlices(ComputeStats(ps)))
  }

  lemma SumFour(a: Slice, b: Slice, c: Slice, d: Slice)
    ensures SumValues([a, b, c, d]) == a.value + b.value + c.value + d.value
  {
    assert [d][1..] == [];
    assert SumValues([d]) == d.value;
    assert [c, d][1..] == [d];
    assert SumValues([c, d]) == c.value + d.value;
    assert [b, c, d][1..] == [c, d];
    assert SumValues([b, c, d]) == b.value + c.value + d.value;
    assert [a, b, c, d][1..] == [b, c, d];
  }

  /** Chart slices are positive, keep the fixed order Completed, On Track,
      At Risk, Pending, drop only empty slices, and their values add up to
      the number of projects. */
  lemma ChartDataSumsToTotal(ps: seq<Project>)
    ensures forall x | x in ChartData(ps) :: x.value > 0
    ensures forall x | x in AllSlices(ComputeStats(ps)) && x.value > 0 :: x in ChartData(ps)
    ensures RankedInOrder(ChartData(ps))
    ensures forall x | x in ChartData(ps) :: SliceRank(x.name) < 4
    ensures SumValues(ChartData(ps)) == |ps|
    ensures |ps| > 0 ==> |ChartData(ps)| > 0
  {
    var s := ComputeStats(ps);
    PendingCountsOthers(ps);
    var a := AllSlices(s);
    SumFour(a[0], a[1], a[2], a[3]);
    assert a == [a[0], a[1], a[2], a[3]];
    KeepPositiveSum(a);
    AllSlicesInOrder(s);
    KeepPositiveKeepsOrder(a);
    KeepPositiveAfter(a, -1);
  }

  /** The four slices carry the four chart names, in the fixed order. */
  lemma AllSlicesInOrder(s: Stats)
    ensures RankedInOrder(AllSlices(s)) && AllAfter(AllSlices(s), -1)
    ensures forall x | x in AllSlices(s) :: SliceRank(x.name) < 4
  {
    var a := AllSlices(s);
    assert SliceRank(a[0].name) == 0 && SliceRank(a[1].name) == 1;
    assert SliceRank(a[2].name) == 2 && SliceRank(a[3].name) == 3;
  }

  /** Dropping slices of value 0 does not change the total. */
  lemma {:induction false} KeepPositiveSum(sl: seq<Slice>)
    requires forall i | 0 <= i < |sl| :: sl[i].value >= 0
    ensures SumValues(KeepPositive(sl)) == SumValues(sl)
    decreases |sl|
  {
    if |sl| > 0 {
      KeepPositiveSum(sl[1..]);
      var head := if sl[0].value > 0 then [sl[0]] else [];
      SumValuesAppend(head, KeepPositive(sl[1..]));
    }
  }

  lemma {:induction false} SumValuesAppend(a: seq<Slice>, b: seq<Slice>)
    ensures SumValues(a + b) == SumValues(a) + SumValues(b)
    decreases |a|
  {
    if |a| > 0 {
      assert (a + b)[1..] == a[1..] + b;
      SumValuesAppend(a[1..], b);
    } else {
      assert a + b == b;
    }
  }

  /** The "Active Clients" card: the number of distinct client names. */
  function ActiveClients(ps: seq<Project>): nat {
    |ClientList.ClientNames(ps)|
  }

  /** The same clients appear in the communication client list, once each. */
  lemma ActiveClientsMatchClientList(ps: seq<Project>)
    ensures ActiveClients(ps) == |ClientList.UniqueClients(ps)|
    ensures ActiveClients(ps) <= |ps|
  {
    var r := ClientList.UniqueClients(ps);
    ClientList.UniqueClientsAreFirstOccurrences(ps);
    ClientList.UniqueClientNamesDistinct(ps);
    var names := ClientList.ClientNames(ps);
    var listed := set k | 0 <= k < |r| :: r[k].clientName;
    forall n | n in names ensures n in listed {
      var p :| p in ps && p.clientName == n;
      var k :| 0 <= k < |r| && r[k].clientName == p.clientName;
    }
    forall n | n in listed ensures n in names {
      var k :| 0 <= k < |r| && r[k].clientName == n;
      var f := ClientList.FirstIndexOf(ps, n).value;
      assert ps[f] in ps;
    }
    assert names == listed;
    DistinctNamesCount(r);
  }

  /** A list with pairwise distinct names has as many names as entries. */
  lemma {:induction false} DistinctNamesCount(r: seq<Project>)
    requires forall i, j | 0 <= i < j < |r| :: r[i].clientName != r[j].clientName
    ensures |set k | 0 <= k < |r| :: r[k].clientName| == |r|
    decreases |r|
  {
    if |r| > 0 {
      var init := r[..|r| - 1];
      DistinctNamesCount(init);
      var a := set k | 0 <= k < |init| :: init[k].clientName;
      var b := set k | 0 <= k < |r| :: r[k].clientName;
      assert b == a + {r[|r| - 1].clientName};
      assert r[|r| - 1].clientName !in a;
    }
  }

  /** "Recent Activity": the first five projects in list order. */
  function RecentActivity(ps: seq<Project>): (r: seq<Project>)
    ensures |r| == if |ps| < 5 then |ps| else 5
    ensures forall i | 0 <= i < |r| :: r[i] == ps[i]
  {
    if |ps| < 5 then ps else ps[..5]
  }
}
