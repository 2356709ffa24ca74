/** The weekly comparison view: the Monday-to-Saturday window around a
    reference date, the per-window tally of activity records (team totals and
    a lazily built per-member table), and the this-week versus last-week
    figures shown on screen. */
module Weekly {
  import opened Types
  import opened Calendar
  import opened Keys

  /** What `processRecords` returns: the team totals, the per-member table,
      and the member keys in the order they were created (`Object.keys`
      lists them in `Keys.ObjectKeys` of that order). */
  datatype Stats = Stats(total: Counts, members: map<string, Counts>, memberOrder: seq<string>)

  /** Both ends included, as time values. */
  datatype Window = Window(start: int, end: int)

  predicate Distinct(s: seq<string>)
  {
    forall i, j :: 0 <= i < j < |s| ==> s[i] != s[j]
  }

  /** The member table lists exactly the keys of the member map, each once. */
  predicate WellFormed(s: Stats)
  {
    && Distinct(s.memberOrder)
    && (forall m :: m in s.members ==> m in s.memberOrder)
    && (forall m :: m in s.memberOrder ==> m in s.members)
  }

  // ---------------------------------------------------------------------
  // The window

  /** The time value a record's day is compared at: noon of that day. */
  function NoonOf(day: int): (n: int)
  {
    day * MsPerDay + 12 * 3600000
  }

  /** Noon falls on its own day, twelve hours after midnight. */
  lemma NoonOfDay(day: int)
    ensures NoonOf(day) / MsPerDay == day && NoonOf(day) % MsPerDay == 12 * 3600000
  {
  }

  predicate InWindow(r: Record, w: Window)
  {
    w.start <= NoonOf(r.date) <= w.end
  }

  /** The window `getWeekRange` returns for a reference day: from midnight of
      its Monday to 23:59:59.999 on the Saturday five days later. */
  function WeekWindow(day: int): (w: Window)
    ensures w.start % MsPerDay == 0 && Weekday(w.start / MsPerDay) == 1
    ensures w.start / MsPerDay <= day <= w.start / MsPerDay + 6
    ensures w.end == w.start + 6 * MsPerDay - 1
  {
    Window(MondayOf(day) * MsPerDay, (MondayOf(day) + 5) * MsPerDay + MsPerDay - 1)
  }

  /** `getWeekRange(date)`. Besides returning two fresh dates, it moves its
      argument to the Monday (keeping the argument's time of day). */
  method GetWeekRange(date: Date) returns (start: Date, end: Date)
    requires date.Valid()
    modifies date
    ensures fresh(start) && fresh(end)
    ensures start.Valid() && end.Valid() && date.Valid()
    ensures start.day == MondayOf(old(date.day)) && start.ms == 0
    ensures end.day == start.day + 5 && end.ms == MsPerDay - 1
    ensures Window(start.Instant(), end.Instant()) == WeekWindow(old(date.day))
    ensures date.day == start.day && date.ms == old(date.ms)
  {
    var day := date.GetDay();
    var diffToMon := date.GetDate() - day + (if day == 0 then -6 else 1);
    var t := date.SetDate(diffToMon);
    start := new Date.FromInstant(t);
    start.SetHours(0, 0, 0, 0);
    end := new Date.Copy(start);
    var _ := end.SetDate(start.GetDate() + 5);
    end.SetHours(23, 59, 59, 999);
  }

  /** Day-level reading of the window: a record is inside exactly when its day
      lies between the Monday and the Saturday, both included. */
  lemma InWeekWindow(r: Record, day: int)
    ensures InWindow(r, WeekWindow(day)) <==> MondayOf(day) <= r.date <= MondayOf(day) + 5
  {
    var m := MondayOf(day);
    if r.date < m {
      assert NoonOf(r.date) <= (m - 1) * MsPerDay + 12 * 3600000;
    }
    if r.date > m + 5 {
      assert NoonOf(r.date) >= (m + 6) * MsPerDay + 12 * 3600000;
    }
  }

  /** A Monday-to-Saturday reference day is inside its own window; a Sunday
      reference day is not (its window is the week that just ended). */
  lemma ReferenceDayInOwnWindow(r: Record)
    ensures InWindow(r, WeekWindow(r.date)) <==> Weekday(r.date) != 0
  {
    InWeekWindow(r, r.date);
    MondayOfIsMonday(r.date);
  }

  /** No Sunday is ever inside a week window. */
  lemma NoSundayInWindow(r: Record, day: int)
    requires InWindow(r, WeekWindow(day))
    ensures Weekday(r.date) != 0
  {
    InWeekWindow(r, day);
    var m := MondayOf(day);
    MondayOfIsMonday(day);
    var q := (m + 4) / 7;
    assert m + 4 == 7 * q + 1;
    assert r.date + 4 == 7 * q + 1 + (r.date - m);
  }

  /** Last week's window is this week's shifted back by exactly seven days,
      and the two never share a record. */
  lemma LastWeekWindow(day: int, r: Record)
    ensures WeekWindow(day - 7).start == WeekWindow(day).start - 7 * MsPerDay
    ensures WeekWindow(day - 7).end == WeekWindow(day).end - 7 * MsPerDay
    ensures !(InWindow(r, WeekWindow(day)) && InWindow(r, WeekWindow(day - 7)))
  {
    MondayOfWeekBefore(day);
    InWeekWindow(r, day);
    InWeekWindow(r, day - 7);
  }

  /** A record dated on the window's Saturday is counted this week; one dated
      the Sunday after falls in neither this week's nor last week's window. */
  lemma SaturdayInSundayOut(day: int, sat: Record, sun: Record)
    requires sat.date == MondayOf(day) + 5 && sun.date == sat.date + 1
    ensures InWindow(sat, WeekWindow(day))
    ensures !InWindow(sun, WeekWindow(day)) && !InWindow(sun, WeekWindow(day - 7))
  {
    MondayOfWeekBefore(day);
    InWeekWindow(sat, day);
    InWeekWindow(sun, day);
    InWeekWindow(sun, day - 7);
  }

  // ---------------------------------------------------------------------
  // What a tally of one window must hold

  /** Number of records of category `c` inside `w`. */
  function CountIn(rs: seq<Record>, c: Category, w: Window): nat
  {
    if rs == [] then 0
    else CountIn(rs[..|rs| - 1], c, w) + (if rs[|rs| - 1].kind == c && InWindow(rs[|rs| - 1], w) then 1 else 0)
  }

  /** Number of records of member `m` and category `c` inside `w`. */
  function MemberCountIn(rs: seq<Record>, m: string, c: Category, w: Window): nat
  {
    if rs == [] then 0
    else
      var r := rs[|rs| - 1];
      MemberCountIn(rs[..|rs| - 1], m, c, w) + (if r.member == m && r.kind == c && InWindow(r, w) then 1 else 0)
  }

  /** The members with at least one record inside `w`. */
  function MembersIn(rs: seq<Record>, w: Window): set<string>
  {
    set r | r in rs && InWindow(r, w) :: r.member
  }

  /** Those members in the order of their first record inside `w`. */
  function FirstSeen(rs: seq<Record>, w: Window): seq<string>
  {
    if rs == [] then []
    else
      var r := rs[|rs| - 1];
      var before := FirstSeen(rs[..|rs| - 1], w);
      if InWindow(r, w) && r.member !in before then before + [r.member] else before
  }

  /** `stats` is the tally of the records `rs` over window `w`. */
  ghost predicate Tallies(stats: Stats, rs: seq<Record>, w: Window)
  {
    && (forall c :: stats.total.Get(c) == CountIn(rs, c, w))
    && stats.members.Keys == MembersIn(rs, w)
    && stats.memberOrder == FirstSeen(rs, w)
    && (forall m, c :: m in stats.members ==> stats.members[m].Get(c) == MemberCountIn(rs, m, c, w))
  }

  lemma MembersInSnoc(p: seq<Record>, r: Record, w: Window)
    ensures MembersIn(p + [r], w) == MembersIn(p, w) + (if InWindow(r, w) then {r.member} else {})
  {
    var lhs := MembersIn(p + [r], w);
    var rhs := MembersIn(p, w) + (if InWindow(r, w) then {r.member} else {});
    forall m | m in lhs ensures m in rhs {
      var x :| x in p + [r] && InWindow(x, w) && x.member == m;
      if x != r { assert x in p; }
    }
    forall m | m in rhs ensures m in lhs {
      if m in MembersIn(p, w) {
        var x :| x in p && InWindow(x, w) && x.member == m;
        assert x in p + [r];
      } else {
        assert r in p + [r];
      }
    }
  }

  /** Appending one record changes each count by that record alone. */
  lemma CountsSnoc(p: seq<Record>, r: Record, w: Window)
    ensures forall c :: CountIn(p + [r], c, w) == CountIn(p, c, w) + (if r.kind == c && InWindow(r, w) then 1 else 0)
    ensures forall m, c ::
      MemberCountIn(p + [r], m, c, w) == MemberCountIn(p, m, c, w) + (if r.member == m && r.kind == c && InWindow(r, w) then 1 else 0)
    ensures FirstSeen(p + [r], w)
      == if InWindow(r, w) && r.member !in FirstSeen(p, w) then FirstSeen(p, w) + [r.member] else FirstSeen(p, w)
  {
    assert (p + [r])[..|p|] == p;
  }

  /** The first-seen order lists every member of the window exactly once. */
  lemma {:induction false} FirstSeenListsMembers(rs: seq<Record>, w: Window)
    ensures Distinct(FirstSeen(rs, w))
    ensures forall m :: m in FirstSeen(rs, w) <==> m in MembersIn(rs, w)
  {
    if rs != [] {
      var p, r := rs[..|rs| - 1], rs[|rs| - 1];
      assert rs == p + [r];
      FirstSeenListsMembers(p, w);
      MembersInSnoc(p, r, w);
    } else {
      assert MembersIn(rs, w) == {};
    }
  }

  /** A member with no record inside the window has a zero count. */
  lemma {:induction false} AbsentMemberCountsZero(rs: seq<Record>, m: string, c: Category, w: Window)
    requires m !in MembersIn(rs, w)
    ensures MemberCountIn(rs, m, c, w) == 0
  {
    if rs != [] {
      var p, r := rs[..|rs| - 1], rs[|rs| - 1];
      assert rs == p + [r];
      MembersInSnoc(p, r, w);
      AbsentMemberCountsZero(p, m, c, w);
    }
  }

  /** Sum over the listed members of their counts of category `c`. */
  function MemberSum(ms: seq<string>, rs: seq<Record>, c: Category, w: Window): nat
  {
    if ms == [] then 0
    else MemberSum(ms[..|ms| - 1], rs, c, w) + MemberCountIn(rs, ms[|ms| - 1], c, w)
  }

  lemma {:induction false} MemberSumSnocRecord(ms: seq<string>, p: seq<Record>, r: Record, c: Category, w: Window)
    requires Distinct(ms)
    ensures MemberSum(ms, p + [r], c, w)
         == MemberSum(ms, p, c, w) + (if r.kind == c && InWindow(r, w) && r.member in ms then 1 else 0)
  {
    CountsSnoc(p, r, w);
    if ms != [] {
      var q, x := ms[..|ms| - 1], ms[|ms| - 1];
      assert ms == q + [x];
      assert Distinct(q);
      MemberSumSnocRecord(q, p, r, c, w);
    }
  }

  /** For every category, the member rows add up to the team total. */
  lemma {:induction false} MemberSumIsTotal(rs: seq<Record>, c: Category, w: Window)
    ensures MemberSum(FirstSeen(rs, w), rs, c, w) == CountIn(rs, c, w)
  {
    if rs != [] {
      var p, r := rs[..|rs| - 1], rs[|rs| - 1];
      assert rs == p + [r];
      var fs := FirstSeen(rs, w);
      MemberSumIsTotal(p, c, w);
      FirstSeenListsMembers(rs, w);
      MemberSumSnocRecord(fs, p, r, c, w);
      NewMemberSumsZero(p, r, c, w);
      assert InWindow(r, w) ==> r.member in MembersIn(rs, w);
    }
  }

  /** Counted over the records before it, the member a record adds to the
      first-seen order contributes nothing. */
  lemma NewMemberSumsZero(p: seq<Record>, r: Record, c: Category, w: Window)
    ensures MemberSum(FirstSeen(p + [r], w), p, c, w) == MemberSum(FirstSeen(p, w), p, c, w)
  {
    var f, fs := FirstSeen(p, w), FirstSeen(p + [r], w);
    CountsSnoc(p, r, w);
    if InWindow(r, w) && r.member !in f {
      FirstSeenListsMembers(p, w);
      assert fs[..|fs| - 1] == f && fs[|fs| - 1] == r.member;
      AbsentMemberCountsZero(p, r.member, c, w);
    }
  }

  /** The same sum read off a tally's member table. */
  function RowSum(order: seq<string>, members: map<string, Counts>, c: Category): nat
  {
    if order == [] then 0
    else
      var m := order[|order| - 1];
      RowSum(order[..|order| - 1], members, c) + (if m in members then members[m].Get(c) else 0)
  }

  lemma {:induction false} RowSumIsMemberSum(order: seq<string>, members: map<string, Counts>, rs: seq<Record>, c: Category, w: Window)
    requires forall m :: m in order ==> m in members && members[m].Get(c) == MemberCountIn(rs, m, c, w)
    ensures RowSum(order, members, c) == MemberSum(order, rs, c, w)
  {
    if order != [] {
      RowSumIsMemberSum(order[..|order| - 1], members, rs, c, w);
    }
  }

  /** In a tally, for every category the members' rows add up to the team total. */
  lemma TallyRowsSumToTotal(stats: Stats, rs: seq<Record>, w: Window, c: Category)
    requires Tallies(stats, rs, w)
    ensures RowSum(stats.memberOrder, stats.members, c) == stats.total.Get(c)
  {
    FirstSeenListsMembers(rs, w);
    RowSumIsMemberSum(stats.memberOrder, stats.members, rs, c, w);
    MemberSumIsTotal(rs, c, w);
  }

  /** A record outside the window, wherever it stands, changes no part of the tally. */
  lemma {:induction false} OutsideRecordChangesNothing(p: seq<Record>, r: Record, q: seq<Record>, w: Window)
    requires !InWindow(r, w)
    ensures forall c :: CountIn(p + [r] + q, c, w) == CountIn(p + q, c, w)
    ensures forall m, c :: MemberCountIn(p + [r] + q, m, c, w) == MemberCountIn(p + q, m, c, w)
    ensures MembersIn(p + [r] + q, w) == MembersIn(p + q, w)
    ensures FirstSeen(p + [r] + q, w) == FirstSeen(p + q, w)
  {
    if q == [] {
      assert p + [r] + q == p + [r] && p + q == p;
      CountsSnoc(p, r, w);
      MembersInSnoc(p, r, w);
    } else {
      var q', x := q[..|q| - 1], q[|q| - 1];
      assert p + [r] + q == (p + [r] + q') + [x];
      assert p + q == (p + q') + [x];
      OutsideRecordChangesNothing(p, r, q', w);
      CountsSnoc(p + [r] + q', x, w);
      CountsSnoc(p + q', x, w);
      MembersInSnoc(p + [r] + q', x, w);
      MembersInSnoc(p + q', x, w);
    }
  }

  // ---------------------------------------------------------------------
  // processRecords

  /** The test `processRecords` applies to one record: its date taken at
      noon, compared with both ends of the window, both ends included. */
  method IsInside(r: Record, start: Date, end: Date) returns (inside: bool)
    ensures inside <==> start.Instant() <= r.date * MsPerDay + 12 * 3600000 <= end.Instant()
  {
    var d := new Date.FromInstant(r.date * MsPerDay);
    d.SetHours(12, 0, 0, 0);
    inside := d.Instant() >= start.Instant() && d.Instant() <= end.Instant();
  }

  /** What one record inside the window does to a tally: its category goes
      up by one in the team totals and in its member's row, the row being
      created with five zeros (and its member appended to the key order) on
      the member's first record. */
  function Bump(stats: Stats, r: Record): (b: Stats)
    ensures forall c :: b.total.Get(c) == stats.total.Get(c) + (if c == r.kind then 1 else 0)
    ensures b.members.Keys == stats.members.Keys + {r.member}
    ensures forall m :: m in stats.members && m != r.member ==> b.members[m] == stats.members[m]
    ensures forall c :: (b.members[r.member].Get(c)
      == (if r.member in stats.members then stats.members[r.member].Get(c) else 0) + (if c == r.kind then 1 else 0))
    ensures b.memberOrder == stats.memberOrder + (if r.member in stats.members then [] else [r.member])
    ensures WellFormed(stats) ==> WellFormed(b)
  {
    var known := r.member in stats.members;
    var row := if known then stats.members[r.member] else ZeroCounts;
    Stats(stats.total.Inc(r.kind),
          stats.members[r.member := row.Inc(r.kind)],
          if known then stats.memberOrder else stats.memberOrder + [r.member])
  }

  lemma BumpTotals(stats: Stats, p: seq<Record>, r: Record, w: Window)
    requires forall c :: stats.total.Get(c) == CountIn(p, c, w)
    requires InWindow(r, w)
    ensures forall c :: Bump(stats, r).total.Get(c) == CountIn(p + [r], c, w)
  {
    CountsSnoc(p, r, w);
  }

  lemma BumpRows(stats: Stats, p: seq<Record>, r: Record, w: Window)
    requires stats.members.Keys == MembersIn(p, w)
    requires forall m, c :: m in stats.members ==> stats.members[m].Get(c) == MemberCountIn(p, m, c, w)
    requires InWindow(r, w)
    ensures Bump(stats, r).members.Keys == MembersIn(p + [r], w)
    ensures forall m, c :: m in Bump(stats, r).members ==> Bump(stats, r).members[m].Get(c) == MemberCountIn(p + [r], m, c, w)
  {
    MembersInSnoc(p, r, w);
    CountsSnoc(p, r, w);
    if r.member !in stats.members {
      forall c ensures MemberCountIn(p, r.member, c, w) == 0 {
        AbsentMemberCountsZero(p, r.member, c, w);
      }
    }
  }

  lemma BumpOrder(stats: Stats, p: seq<Record>, r: Record, w: Window)
    requires stats.members.Keys == MembersIn(p, w) && stats.memberOrder == FirstSeen(p, w)
    requires InWindow(r, w)
    ensures Bump(stats, r).memberOrder == FirstSeen(p + [r], w)
  {
    CountsSnoc(p, r, w);
    FirstSeenListsMembers(p, w);
  }

  /** A record inside the window extends a tally by `Bump`. */
  lemma BumpTallies(stats: Stats, p: seq<Record>, r: Record, w: Window)
    requires Tallies(stats, p, w) && InWindow(r, w)
    ensures Tallies(Bump(stats, r), p + [r], w)
  {
    BumpTotals(stats, p, r, w);
    BumpRows(stats, p, r, w);
    BumpOrder(stats, p, r, w);
  }

  /** A record outside the window leaves a tally as it is. */
  lemma SkipTallies(stats: Stats, p: seq<Record>, r: Record, w: Window)
    requires Tallies(stats, p, w) && !InWindow(r, w)
    ensures Tallies(stats, p + [r], w)
  {
    MembersInSnoc(p, r, w);
    CountsSnoc(p, r, w);
  }

  /** `processRecords(records, start, end)`: one pass over the records; each
      record is compared at noon of its day against the two dates, both ends
      included; a record inside bumps its category in the team totals and in
      its member's row, the row being created with five zeros on first use. */
  method ProcessRecords(records: seq<Record>, start: Date, end: Date) returns (stats: Stats)
    ensures Tallies(stats, records, Window(start.Instant(), end.Instant()))
    ensures WellFormed(stats)
  {
    ghost var w := Window(start.Instant(), end.Instant());
    var total := ZeroCounts;
    var members: map<string, Counts> := map[];
    var order: seq<string> := [];
    for i := 0 to |records|
      invariant w == Window(start.Instant(), end.Instant())
      invariant Tallies(Stats(total, members, order), records[..i], w)
    {
      var r := records[i];
      ghost var before := Stats(total, members, order);
      assert records[..i + 1] == records[..i] + [r];
      var inside := IsInside(r, start, end);
      if inside {
        total := total.Inc(r.kind);
        if r.member !in members {
          members := members[r.member := ZeroCounts];
          order := order + [r.member];
        }
        members := members[r.member := members[r.member].Inc(r.kind)];
        assert members == before.members[r.member := members[r.member]];
        assert Stats(total, members, order) == Bump(before, r);
        BumpTallies(before, records[..i], r, w);
      } else {
        SkipTallies(before, records[..i], r, w);
      }
    }
    assert records[..|records|] == records;
    FirstSeenListsMembers(records, w);
    stats := Stats(total, members, order);
  }

  // ---------------------------------------------------------------------
  // This week against last week

  /** The data-loading step of the view: this week's window from a copy of
      `now`, last week's from another copy moved back seven days, and one
      tally per window. `now` itself is left untouched. */
  method LoadWeeklyStats(records: seq<Record>, now: Date) returns (current: Stats, previous: Stats)
    requires now.Valid()
    ensures Tallies(current, records, WeekWindow(now.day)) && WellFormed(current)
    ensures Tallies(previous, records, WeekWindow(now.day - 7)) && WellFormed(previous)
  {
    var thisWeekDate := new Date.Copy(now);
    current := TallyWeekOf(records, thisWeekDate);
    var lastWeekDate := new Date.Copy(now);
    var _ := lastWeekDate.SetDate(lastWeekDate.GetDate() - 7);
    previous := TallyWeekOf(records, lastWeekDate);
  }

  /** `processRecords` over the range `getWeekRange` gives for `date`. */
  method TallyWeekOf(records: seq<Record>, date: Date) returns (stats: Stats)
    requires date.Valid()
    modifies date
    ensures Tallies(stats, records, WeekWindow(old(date.day))) && WellFormed(stats)
    ensures date.day == MondayOf(old(date.day)) && date.ms == old(date.ms)
  {
    var start, end := GetWeekRange(date);
    stats := ProcessRecords(records, start, end);
  }

  /** One bar pair of the team overview: this week's and last week's count. */
  datatype ChartRow = ChartRow(category: Category, current: nat, last: nat)

  /** The signed change shown under each figure. */
  function Change(current: nat, last: nat): int
  {
    current - last
  }

  /** `chartData`: the team totals of both weeks in the fixed category order. */
  function ChartData(current: Stats, previous: Stats): (rows: seq<ChartRow>)
    ensures |rows| == 5
    ensures forall i :: 0 <= i < 5 ==>
      && rows[i].category == CategoryOrder[i]
      && rows[i].current == current.total.Get(CategoryOrder[i])
      && rows[i].last == previous.total.Get(CategoryOrder[i])
  {
    [ ChartRow(Roadshow, current.total.roadshow, previous.total.roadshow),
      ChartRow(Call, current.total.call, previous.total.call),
      ChartRow(Report, current.total.report, previous.total.report),
      ChartRow(Service, current.total.service, previous.total.service),
      ChartRow(Internal, current.total.internal, previous.total.internal) ]
  }

  /** One figure of a member card: this week's count and last week's. */
  datatype Cell = Cell(category: Category, current: nat, last: nat)

  datatype MemberRow = MemberRow(member: string, cells: seq<Cell>)

  /** A member's last-week row, or five zeros when the member had no record last week. */
  function LastWeekRow(previous: Stats, m: string): (row: Counts)
    ensures forall c :: row.Get(c) == if m in previous.members then previous.members[m].Get(c) else 0
  {
    if m in previous.members then previous.members[m] else ZeroCounts
  }

  function Cells(curr: Counts, last: Counts): seq<Cell>
  {
    seq(5, j requires 0 <= j < 5 => Cell(CategoryOrder[j], curr.Get(CategoryOrder[j]), last.Get(CategoryOrder[j])))
  }

  /** The member breakdown: one card per key of this week's member table, in
      the order `Object.keys` lists the keys. */
  function MemberBreakdown(current: Stats, previous: Stats): (rows: seq<MemberRow>)
    requires WellFormed(current)
    ensures |rows| == |current.memberOrder|
    ensures forall i :: 0 <= i < |rows| ==>
      rows[i].member == ObjectKeys(current.memberOrder)[i] && rows[i].member in current.members
  {
    var keys := ObjectKeys(current.memberOrder);
    KeysFromOrder(current.memberOrder);
    seq(|keys|, i requires 0 <= i < |keys| =>
      var m := keys[i];
      MemberRow(m, Cells(current.members[m], LastWeekRow(previous, m))))
  }

  /** The team overview shows, per category in the fixed order, this week's
      count, last week's count and their difference, all as counted from the records. */
  lemma ChartMatchesRecords(rs: seq<Record>, day: int, current: Stats, previous: Stats)
    requires Tallies(current, rs, WeekWindow(day)) && Tallies(previous, rs, WeekWindow(day - 7))
    ensures |ChartData(current, previous)| == 5
    ensures forall i :: 0 <= i < 5 ==>
      var row := ChartData(current, previous)[i];
      && row.category == CategoryOrder[i]
      && row.current == CountIn(rs, CategoryOrder[i], WeekWindow(day))
      && row.last == CountIn(rs, CategoryOrder[i], WeekWindow(day - 7))
      && Change(row.current, row.last) == CountIn(rs, CategoryOrder[i], WeekWindow(day)) - CountIn(rs, CategoryOrder[i], WeekWindow(day - 7))
  {
    assert current.total.roadshow == current.total.Get(Roadshow);
    assert current.total.call == current.total.Get(Call);
    assert current.total.report == current.total.Get(Report);
    assert current.total.service == current.total.Get(Service);
    assert current.total.internal == current.total.Get(Internal);
    assert previous.total.roadshow == previous.total.Get(Roadshow);
    assert previous.total.call == previous.total.Get(Call);
    assert previous.total.report == previous.total.Get(Report);
    assert previous.total.service == previous.total.Get(Service);
    assert previous.total.internal == previous.total.Get(Internal);
  }

  /** The member breakdown lists exactly the members with a record this week,
      in `Object.keys` order of their first-seen order, and each figure is that member's
      count for the category in the week, a member absent last week counting 0. */
  lemma BreakdownMatchesRecords(rs: seq<Record>, day: int, current: Stats, previous: Stats)
    requires Tallies(current, rs, WeekWindow(day)) && WellFormed(current)
    requires Tallies(previous, rs, WeekWindow(day - 7))
    ensures |MemberBreakdown(current, previous)| == |FirstSeen(rs, WeekWindow(day))|
    ensures var rows := MemberBreakdown(current, previous);
      forall i :: 0 <= i < |rows| ==> rows[i].member == ObjectKeys(FirstSeen(rs, WeekWindow(day)))[i] && |rows[i].cells| == 5
    ensures var rows := MemberBreakdown(current, previous);
      forall i, j :: 0 <= i < |rows| && 0 <= j < 5 ==>
        && rows[i].cells[j].category == CategoryOrder[j]
        && rows[i].cells[j].current == MemberCountIn(rs, rows[i].member, CategoryOrder[j], WeekWindow(day))
        && rows[i].cells[j].last == MemberCountIn(rs, rows[i].member, CategoryOrder[j], WeekWindow(day - 7))
  {
    var rows := MemberBreakdown(current, previous);
    forall i, j | 0 <= i < |rows| && 0 <= j < 5
      ensures rows[i].cells[j].last == MemberCountIn(rs, rows[i].member, CategoryOrder[j], WeekWindow(day - 7))
    {
      var m := rows[i].member;
      if m !in previous.members {
        AbsentMemberCountsZero(rs, m, CategoryOrder[j], WeekWindow(day - 7));
      }
    }
  }

  /** What the screen shows for the records `rs` and reference day `day`:
      the overview holds, per category in the fixed order, this week's and
      last week's count and their difference; the breakdown holds one card
      per member present this week, in the `Object.keys` order of the
      first-seen order, with that member's
      count of each category this week and last week. */
  predicate ReportShows(chart: seq<ChartRow>, breakdown: seq<MemberRow>, rs: seq<Record>, day: int)
  {
    && |chart| == 5
    && (forall i :: 0 <= i < 5 ==>
      && chart[i].category == CategoryOrder[i]
      && chart[i].current == CountIn(rs, CategoryOrder[i], WeekWindow(day))
      && chart[i].last == CountIn(rs, CategoryOrder[i], WeekWindow(day - 7))
      && Change(chart[i].current, chart[i].last)
         == CountIn(rs, CategoryOrder[i], WeekWindow(day)) - CountIn(rs, CategoryOrder[i], WeekWindow(day - 7)))
    && |breakdown| == |FirstSeen(rs, WeekWindow(day))|
    && (forall i :: 0 <= i < |breakdown| ==>
          breakdown[i].member == ObjectKeys(FirstSeen(rs, WeekWindow(day)))[i] && |breakdown[i].cells| == 5)
    && (forall i, j :: 0 <= i < |breakdown| && 0 <= j < |breakdown[i].cells| ==>
      && breakdown[i].cells[j].category == CategoryOrder[j]
      && breakdown[i].cells[j].current == MemberCountIn(rs, breakdown[i].member, CategoryOrder[j], WeekWindow(day))
      && breakdown[i].cells[j].last == MemberCountIn(rs, breakdown[i].member, CategoryOrder[j], WeekWindow(day - 7)))
  }

  /** Both parts of the screen read off the two tallies. */
  lemma ReportMatchesRecords(rs: seq<Record>, day: int, current: Stats, previous: Stats)
    requires Tallies(current, rs, WeekWindow(day)) && WellFormed(current)
    requires Tallies(previous, rs, WeekWindow(day - 7))
    ensures ReportShows(ChartData(current, previous), MemberBreakdown(current, previous), rs, day)
  {
    ChartMatchesRecords(rs, day, current, previous);
    BreakdownMatchesRecords(rs, day, current, previous);
  }

  /** The whole view: load both weeks, then build the overview and the member
      cards; every figure on screen is a count of the records in its week. */
  method WeeklyReport(records: seq<Record>, now: Date) returns (chart: seq<ChartRow>, breakdown: seq<MemberRow>)
    requires now.Valid()
    ensures ReportShows(chart, breakdown, records, now.day)
  {
    var current, previous := LoadWeeklyStats(records, now);
    ReportMatchesRecords(records, now.day, current, previous);
    chart, breakdown := ChartData(current, previous), MemberBreakdown(current, previous);
  }
}
