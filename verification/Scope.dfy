/** Analytics scopes: which coaches a caller may see, under which head coach, and for which stretches of time. */
module Scope {
  import opened Common
  import opened Periods
  import opened Intervals

  datatype CoachPeriods = CoachPeriods(coach: Id, periods: seq<Range>)

  // ---- grouping periods by member ----

  function RangeOf(p: Period): Range {
    Range(p.start, p.end)
  }

  function Added(ids: seq<Id>, id: Id): seq<Id> {
    if id in ids then ids else ids + [id]
  }

  /** The members of a list of periods, in the order they are first seen. */
  function Members(ps: seq<Period>): seq<Id>
    decreases |ps|
  {
    if ps == [] then [] else Added(Members(ps[..|ps| - 1]), ps[|ps| - 1].member)
  }

  function RangesOf(ps: seq<Period>, member: Id): seq<Range>
    decreases |ps|
  {
    if ps == [] then []
    else RangesOf(ps[..|ps| - 1], member) + if ps[|ps| - 1].member == member then [RangeOf(ps[|ps| - 1])] else []
  }

  function Grouped(ps: seq<Period>): seq<CoachPeriods> {
    seq(|Members(ps)|, i requires 0 <= i < |Members(ps)| =>
        CoachPeriods(Members(ps)[i], Sorted(RangesOf(ps, Members(ps)[i]), Start)))
  }

  lemma MembersSnoc(ps: seq<Period>, p: Period)
    ensures Members(ps + [p]) == Added(Members(ps), p.member)
  {
    assert (ps + [p])[..|ps|] == ps;
  }

  ghost predicate HasMember(ps: seq<Period>, m: Id) {
    exists i :: 0 <= i < |ps| && ps[i].member == m
  }

  lemma {:induction false} MembersAreExact(ps: seq<Period>)
    ensures forall m :: m in Members(ps) <==> HasMember(ps, m)
    decreases |ps|
  {
    if ps != [] {
      var most, last := ps[..|ps| - 1], ps[|ps| - 1];
      MembersAreExact(most);
      assert forall i :: 0 <= i < |most| ==> ps[i] == most[i];
      forall m
        ensures HasMember(ps, m) <==> HasMember(most, m) || last.member == m
      {
        assert ps[|ps| - 1] == last;
      }
    }
  }

  lemma {:induction false} MembersAreDistinct(ps: seq<Period>)
    ensures forall i, j :: 0 <= i < j < |Members(ps)| ==> Members(ps)[i] != Members(ps)[j]
    decreases |ps|
  {
    if ps != [] {
      MembersAreDistinct(ps[..|ps| - 1]);
    }
  }

  lemma {:induction false} StrangersHaveNoRanges(ps: seq<Period>, member: Id)
    requires member !in Members(ps)
    ensures RangesOf(ps, member) == []
    decreases |ps|
  {
    if ps != [] {
      StrangersHaveNoRanges(ps[..|ps| - 1], member);
    }
  }

  method GroupPeriodsByMember(ps: seq<Period>) returns (out: seq<CoachPeriods>)
    ensures out == Grouped(ps)
  {
    var idx: map<Id, nat> := map[];
    out := [];
    for k := 0 to |ps|
      invariant Collected(idx, out, ps[..k])
    {
      assert ps[..k + 1] == ps[..k] + [ps[k]];
      idx, out := AddPeriod(idx, out, ps[k], ps[..k]);
    }
    assert ps[..|ps|] == ps;
    out := SortGroups(out, Members(ps), ps);
  }

  /** groups holds the periods seen so far, unsorted, and idx says where each member's group is. */
  predicate Collected(idx: map<Id, nat>, groups: seq<CoachPeriods>, done: seq<Period>) {
    var members := Members(done);
    && |groups| == |members| && (forall i :: 0 <= i < |groups| ==>
                                   groups[i] == CoachPeriods(members[i], RangesOf(done, members[i])))
    && (forall i :: 0 <= i < |members| ==> members[i] in idx && idx[members[i]] == i)
    && (forall m :: m in idx ==> m in members)
  }

  method AddPeriod(idx: map<Id, nat>, groups: seq<CoachPeriods>, p: Period, ghost done: seq<Period>)
    returns (idx': map<Id, nat>, out: seq<CoachPeriods>)
    requires Collected(idx, groups, done)
    ensures Collected(idx', out, done + [p])
  {
    idx', out := idx, groups;
    ghost var members := Members(done);
    if p.member !in idx {
      StrangersHaveNoRanges(done, p.member);
      idx' := idx[p.member := |out|];
      out := out + [CoachPeriods(p.member, [])];
      members := members + [p.member];
    }
    assert |out| == |members| && forall i :: 0 <= i < |out| ==>
                                   out[i] == CoachPeriods(members[i], RangesOf(done, members[i]));
    var i := idx'[p.member];
    out := out[i := CoachPeriods(p.member, out[i].periods + [RangeOf(p)])];
    MembersSnoc(done, p);
    forall j | 0 <= j < |out|
      ensures out[j] == CoachPeriods(members[j], RangesOf(done + [p], members[j]))
    {
    }
  }

  method SortGroups(groups: seq<CoachPeriods>, ghost members: seq<Id>, ghost ps: seq<Period>)
    returns (out: seq<CoachPeriods>)
    requires |groups| == |members| && forall i :: 0 <= i < |groups| ==>
                                        groups[i] == CoachPeriods(members[i], RangesOf(ps, members[i]))
    ensures |out| == |members| && forall i :: 0 <= i < |out| ==>
                                    out[i] == CoachPeriods(members[i], Sorted(RangesOf(ps, members[i]), Start))
  {
    out := groups;
    for i := 0 to |out|
      invariant |out| == |groups| && forall j :: i <= j < |out| ==> out[j] == groups[j]
      invariant forall j :: 0 <= j < i ==> out[j] == CoachPeriods(members[j], Sorted(groups[j].periods, Start))
    {
      out := out[i := CoachPeriods(out[i].coach, Sorted(out[i].periods, Start))];
    }
  }

  /** A member's group covers exactly what the member's periods cover. */
  lemma {:induction false} RangesAreExact(ps: seq<Period>, member: Id, t: Time)
    ensures Covered(t, RangesOf(ps, member)) <==>
              exists i :: 0 <= i < |ps| && ps[i].member == member && In(t, RangeOf(ps[i]))
    decreases |ps|
  {
    if ps != [] {
      var most, last := ps[..|ps| - 1], ps[|ps| - 1];
      RangesAreExact(most, member, t);
      var tail := if last.member == member then [RangeOf(last)] else [];
      CoveredAppend(t, RangesOf(most, member), tail);
      assert Covered(t, tail) <==> last.member == member && In(t, RangeOf(last)) by {
        assert tail != [] ==> tail[0] == RangeOf(last);
      }
      assert ps[|ps| - 1] == last && forall i :: 0 <= i < |most| ==> ps[i] == most[i];
    }
  }

  datatype Tag = Tag(member: Id, range: Range)

  function Tags(ps: seq<Period>): seq<Tag> {
    seq(|ps|, i requires 0 <= i < |ps| => Tag(ps[i].member, RangeOf(ps[i])))
  }

  lemma {:induction false} RangesKeepCounts(ps: seq<Period>, member: Id, r: Range)
    ensures multiset(RangesOf(ps, member))[r] == multiset(Tags(ps))[Tag(member, r)]
    decreases |ps|
  {
    if ps != [] {
      var most, last := ps[..|ps| - 1], ps[|ps| - 1];
      RangesKeepCounts(most, member, r);
      assert Tags(ps) == Tags(most) + [Tag(last.member, RangeOf(last))];
    }
  }

  /** Grouping neither loses nor duplicates a period: a range is in a member's group as often as in the list. */
  lemma GroupingKeepsEveryPeriod(ps: seq<Period>, i: nat, r: Range)
    requires i < |Grouped(ps)|
    ensures multiset(Grouped(ps)[i].periods)[r] == multiset(Tags(ps))[Tag(Grouped(ps)[i].coach, r)]
  {
    SortIsStable(RangesOf(ps, Members(ps)[i]), Start);
    RangesKeepCounts(ps, Members(ps)[i], r);
  }

  // ---- the store's listing ----

  function Selected(ps: seq<Period>, kind: Kind, parents: set<Id>): seq<Period>
    decreases |ps|
  {
    if ps == [] then []
    else Selected(ps[..|ps| - 1], kind, parents)
         + if ps[|ps| - 1].kind == kind && ps[|ps| - 1].parent in parents then [ps[|ps| - 1]] else []
  }

  function PeriodStart(p: Period): Time {
    p.start
  }

  function Listed(ps: seq<Period>, kind: Kind, parents: set<Id>): seq<Period> {
    Sorted(Selected(ps, kind, parents), PeriodStart)
  }

  lemma {:induction false} SelectedIsExact(ps: seq<Period>, kind: Kind, parents: set<Id>, p: Period)
    ensures p in Selected(ps, kind, parents) <==> p in ps && p.kind == kind && p.parent in parents
    decreases |ps|
  {
    if ps != [] {
      SelectedIsExact(ps[..|ps| - 1], kind, parents, p);
      assert ps == ps[..|ps| - 1] + [ps[|ps| - 1]];
    }
  }

  lemma {:induction false} NothingSelected(ps: seq<Period>, kind: Kind)
    ensures Selected(ps, kind, {}) == []
    decreases |ps|
  {
    if ps != [] {
      NothingSelected(ps[..|ps| - 1], kind);
    }
  }

  lemma SelectedSnoc(ps: seq<Period>, i: nat, kind: Kind, parents: set<Id>)
    requires i < |ps|
    ensures Selected(ps[..i + 1], kind, parents)
            == Selected(ps[..i], kind, parents) + if ps[i].kind == kind && ps[i].parent in parents then [ps[i]] else []
  {
    assert ps[..i + 1][..i] == ps[..i];
  }

  lemma {:induction false} SelectedCounts(ps: seq<Period>, kind: Kind, parents: set<Id>, p: Period)
    ensures multiset(Selected(ps, kind, parents))[p] == if p.kind == kind && p.parent in parents then multiset(ps)[p]
            else 0
    decreases |ps|
  {
    if ps != [] {
      var most, last := ps[..|ps| - 1], ps[|ps| - 1];
      SelectedCounts(most, kind, parents, p);
      assert ps == most + [last];
      CountsAppend(most, [last], p);
      CountsAppend(Selected(most, kind, parents), if last.kind == kind && last.parent in parents then [last]
                   else [], p);
    }
  }

  lemma CountsAppend(ps: seq<Period>, qs: seq<Period>, p: Period)
    ensures multiset(ps + qs)[p] == multiset(ps)[p] + multiset(qs)[p]
  {
  }

  /** A listing is sorted, and has the rows of its parents as often as the store has them. */
  lemma ListedCounts(ps: seq<Period>, kind: Kind, parents: set<Id>)
    ensures Ascending(Listed(ps, kind, parents), PeriodStart)
    ensures forall p :: multiset(Listed(ps, kind, parents))[p] == if p.kind == kind && p.parent in parents
                        then multiset(ps)[p] else 0
  {
    SortIsStable(Selected(ps, kind, parents), PeriodStart);
    forall p
      ensures multiset(Listed(ps, kind, parents))[p] == if p.kind == kind && p.parent in parents then multiset(ps)[p]
              else 0
    {
      SelectedCounts(ps, kind, parents, p);
    }
  }

  lemma ListedIsExact(ps: seq<Period>, kind: Kind, parents: set<Id>, p: Period)
    ensures p in Listed(ps, kind, parents) <==> p in ps && p.kind == kind && p.parent in parents
  {
    SelectedIsExact(ps, kind, parents, p);
    SortIsStable(Selected(ps, kind, parents), PeriodStart);
    assert p in Selected(ps, kind, parents) <==> p in multiset(Selected(ps, kind, parents));
    assert p in Listed(ps, kind, parents) <==> p in multiset(Listed(ps, kind, parents));
  }

  // ---- scopes ----

  /** A coach seen under a head coach, and when. */
  datatype Entry = Entry(coach: Id, head: Id, periods: seq<Range>)

  /** The periods of one head's team, in listing order. */
  function TeamOf(rows: seq<Period>, head: Id): seq<Period>
    decreases |rows|
  {
    if rows == [] then []
    else TeamOf(rows[..|rows| - 1], head) + if rows[|rows| - 1].parent == head then [rows[|rows| - 1]] else []
  }

  /** The members of a team while their head was in scope; members who never were are left out. */
  function MemberEntries(groups: seq<CoachPeriods>, head: CoachPeriods): seq<Entry>
    decreases |groups|
  {
    if groups == [] then []
    else
      var m := groups[|groups| - 1];
      var both := Intersection(m.periods, head.periods);
      MemberEntries(groups[..|groups| - 1], head) + if both != [] then [Entry(m.coach, head.coach, both)] else []
  }

  /** A head and the head's team. */
  function HeadEntries(head: CoachPeriods, rows: seq<Period>): seq<Entry> {
    [Entry(head.coach, head.coach, head.periods)] + MemberEntries(Grouped(TeamOf(rows, head.coach)), head)
  }

  function AllEntries(heads: seq<CoachPeriods>, rows: seq<Period>): seq<Entry>
    decreases |heads|
  {
    if heads == [] then [] else AllEntries(heads[..|heads| - 1], rows) + HeadEntries(heads[|heads| - 1], rows)
  }

  function KeptHeads(heads: seq<CoachPeriods>, only: Id): seq<CoachPeriods>
    decreases |heads|
  {
    if heads == [] then []
    else KeptHeads(heads[..|heads| - 1], only)
         + if only == "" || heads[|heads| - 1].coach == only then [heads[|heads| - 1]] else []
  }

  function HeadIds(heads: seq<CoachPeriods>): set<Id> {
    set h | h in heads :: h.coach
  }

  function HeadsInScope(history: seq<Period>, gym: Id, only: Id): seq<CoachPeriods> {
    KeptHeads(Grouped(Listed(history, GymKind, {gym})), only)
  }

  /** The entries of a gym's scope, over the whole history or one head coach of it. */
  function GymEntries(history: seq<Period>, gym: Id, only: Id): seq<Entry> {
    var heads := HeadsInScope(history, gym, only);
    AllEntries(heads, Listed(history, TeamKind, HeadIds(heads)))
  }

  /** A head coach's own scope: the head since the promotion, and the team. */
  function TeamEntries(history: seq<Period>, head: Id, since: Time): seq<Entry> {
    [Entry(head, head, [Range(since, None)])] + AsEntries(Grouped(Listed(history, TeamKind, {head})), head)
  }

  function AsEntries(groups: seq<CoachPeriods>, head: Id): seq<Entry> {
    seq(|groups|, i requires 0 <= i < |groups| => Entry(groups[i].coach, head, groups[i].periods))
  }

  class PeriodStore {
    var periods: seq<Period>

    constructor (periods: seq<Period>)
      ensures this.periods == periods
    {
      this.periods := periods;
    }

    /**
     The periods of those parents, each as often as it is stored, sorted by start; none for no parents.
     Equal starts come in storage order.
     */
    method ListForParents(kind: Kind, parents: seq<Id>) returns (rows: seq<Period>)
      ensures Ascending(rows, PeriodStart)
      ensures forall p :: multiset(rows)[p] == if p.kind == kind && p.parent in parents then multiset(periods)[p] else 0
      ensures rows == Listed(periods, kind, set x | x in parents)
    {
      rows := [];
      ghost var ids := set x | x in parents;
      ListedCounts(periods, kind, ids);
      if parents == [] {
        NothingSelected(periods, kind);
        assert ids == {};
        return;
      }
      for i := 0 to |periods|
        invariant rows == Selected(periods[..i], kind, ids)
      {
        SelectedSnoc(periods, i, kind, ids);
        if periods[i].kind == kind && periods[i].parent in parents {
          rows := rows + [periods[i]];
        }
      }
      assert periods[..|periods|] == periods;
      rows := Sorted(rows, PeriodStart);
    }

    /** only is the head filter a head coach may send: it can only name the caller. */
    method TeamEntriesOf(head: Id, since: Time, only: Id) returns (entries: Option<seq<Entry>>)
      ensures entries == if only != "" && only != head then None else Some(TeamEntries(periods, head, since))
    {
      if only != "" && only != head {
        return None;
      }
      var rows := ListForParents(TeamKind, [head]);
      assert (set x | x in [head]) == {head};
      var groups := GroupPeriodsByMember(rows);
      var team := EntriesUnder(groups, head);
      return Some([Entry(head, head, [Range(since, None)])] + team);
    }

    /** None when the head filter names nobody who ever was in the gym. */
    method GymEntriesOf(gym: Id, only: Id) returns (entries: Option<seq<Entry>>)
      ensures entries == if only != "" && HeadsInScope(periods, gym, only) == [] then None
              else Some(GymEntries(periods, gym, only))
    {
      var gymPeriods := ListForParents(GymKind, [gym]);
      assert (set x | x in [gym]) == {gym};
      var heads := GroupPeriodsByMember(gymPeriods);
      heads := KeepHead(heads, only);
      if only != "" && heads == [] {
        return None;
      }
      var ids := IdsOf(heads);
      SameIds(ids, heads);
      var rows := ListForParents(TeamKind, ids);
      var all := EntriesOfHeads(heads, rows);
      return Some(all);
    }
  }

  method EntriesUnder(groups: seq<CoachPeriods>, head: Id) returns (all: seq<Entry>)
    ensures all == AsEntries(groups, head)
  {
    all := [];
    for i := 0 to |groups|
      invariant all == AsEntries(groups[..i], head)
    {
      all := all + [Entry(groups[i].coach, head, groups[i].periods)];
    }
    assert groups[..|groups|] == groups;
  }

  // ---- narrowing to one coach, and who is current ----

  datatype ScopeCoach = ScopeCoach(coach: Id, head: Id, current: bool, periods: seq<Range>)

  datatype ScopeResult = ScopeResult(coaches: seq<ScopeCoach>, currentIds: seq<Id>)

  function KeptEntries(es: seq<Entry>, only: Id): seq<Entry>
    decreases |es|
  {
    if es == [] then []
    else KeptEntries(es[..|es| - 1], only) + if only == "" || es[|es| - 1].coach == only then [es[|es| - 1]] else []
  }

  function Shown(es: seq<Entry>): seq<ScopeCoach> {
    seq(|es|, i requires 0 <= i < |es| =>
        ScopeCoach(es[i].coach, es[i].head, Intervals.HasOpen(es[i].periods), es[i].periods))
  }

  /** The coaches with an open entry, in the order their first open entry comes. */
  function CurrentIds(es: seq<Entry>): seq<Id>
    decreases |es|
  {
    if es == [] then []
    else
      var before := CurrentIds(es[..|es| - 1]);
      if Intervals.HasOpen(es[|es| - 1].periods) then Added(before, es[|es| - 1].coach) else before
  }

  lemma OneMoreEntry(es: seq<Entry>, i: nat, only: Id)
    requires i < |es|
    ensures KeptEntries(es[..i + 1], only) == KeptEntries(es[..i], only) + if only == "" || es[i].coach == only
            then [es[i]] else []
    ensures CurrentIds(es[..i + 1]) == if Intervals.HasOpen(es[i].periods) then Added(CurrentIds(es[..i]), es[i].coach)
            else CurrentIds(es[..i])
    ensures Shown(es[..i + 1]) == Shown(es[..i])
            + [ScopeCoach(es[i].coach, es[i].head, Intervals.HasOpen(es[i].periods), es[i].periods)]
  {
    assert es[..i + 1][..i] == es[..i];
  }

  method KeepCoach(entries: seq<Entry>, only: Id) returns (kept: seq<Entry>)
    ensures kept == KeptEntries(entries, only)
  {
    kept := [];
    for i := 0 to |entries|
      invariant kept == KeptEntries(entries[..i], only)
    {
      OneMoreEntry(entries, i, only);
      if only == "" || entries[i].coach == only {
        kept := kept + [entries[i]];
      }
    }
    assert entries[..|entries|] == entries;
  }

  /** Narrows to one coach when asked (None: that coach is not in scope) and marks who is current. */
  method Finish(entries: seq<Entry>, only: Id) returns (res: Option<ScopeResult>)
    ensures var kept := KeptEntries(entries, only);
            res == if only != "" && kept == [] then None else Some(ScopeResult(Shown(kept), CurrentIds(kept)))
  {
    var kept := KeepCoach(entries, only);
    if only != "" && kept == [] {
      return None;
    }
    var coaches: seq<ScopeCoach>, ids: seq<Id>, seen: set<Id> := [], [], {};
    for i := 0 to |kept|
      invariant coaches == Shown(kept[..i]) && ids == CurrentIds(kept[..i])
      invariant forall id :: id in seen <==> id in ids
    {
      OneMoreEntry(kept, i, only);
      var e := kept[i];
      var current := HasOpenPeriod(e.periods);
      coaches := coaches + [ScopeCoach(e.coach, e.head, current, e.periods)];
      if current && e.coach !in seen {
        seen := seen + {e.coach};
        ids := ids + [e.coach];
      }
    }
    assert kept[..|kept|] == kept;
    return Some(ScopeResult(coaches, ids));
  }

  method EntriesOfHeads(heads: seq<CoachPeriods>, rows: seq<Period>) returns (all: seq<Entry>)
    ensures all == AllEntries(heads, rows)
  {
    var byHead := GroupByHead(rows);
    all := [];
    for i := 0 to |heads|
      invariant all == AllEntries(heads[..i], rows)
    {
      var h := heads[i];
      OneMoreHead(heads, rows, i);
      var groups := GroupPeriodsByMember(TeamIn(byHead, h.coach));
      var mine := EntriesOf(h, groups);
      all := all + mine;
    }
    assert heads[..|heads|] == heads;
  }

  lemma OneMoreHead(heads: seq<CoachPeriods>, rows: seq<Period>, i: nat)
    requires i < |heads|
    ensures AllEntries(heads[..i + 1], rows) == AllEntries(heads[..i], rows) + HeadEntries(heads[i], rows)
  {
    assert heads[..i + 1][..i] == heads[..i];
  }

  function TeamIn(byHead: map<Id, seq<Period>>, head: Id): seq<Period> {
    if head in byHead then byHead[head] else []
  }

  lemma {:induction false} AllKept(heads: seq<CoachPeriods>)
    ensures KeptHeads(heads, "") == heads
    decreases |heads|
  {
    if heads != [] {
      AllKept(heads[..|heads| - 1]);
    }
  }

  method KeepHead(heads: seq<CoachPeriods>, only: Id) returns (kept: seq<CoachPeriods>)
    ensures kept == KeptHeads(heads, only)
  {
    if only == "" {
      AllKept(heads);
      return heads;
    }
    kept := [];
    for i := 0 to |heads|
      invariant kept == KeptHeads(heads[..i], only)
    {
      assert heads[..i + 1][..i] == heads[..i];
      if heads[i].coach == only {
        kept := kept + [heads[i]];
      }
    }
    assert heads[..|heads|] == heads;
  }

  method IdsOf(heads: seq<CoachPeriods>) returns (ids: seq<Id>)
    ensures |ids| == |heads| && forall i :: 0 <= i < |heads| ==> ids[i] == heads[i].coach
  {
    ids := [];
    for i := 0 to |heads|
      invariant |ids| == i && forall j :: 0 <= j < i ==> ids[j] == heads[j].coach
    {
      ids := ids + [heads[i].coach];
    }
  }

  lemma SameIds(ids: seq<Id>, heads: seq<CoachPeriods>)
    requires |ids| == |heads| && forall i :: 0 <= i < |heads| ==> ids[i] == heads[i].coach
    ensures (set x | x in ids) == HeadIds(heads)
  {
    forall x
      ensures x in ids <==> x in HeadIds(heads)
    {
      if x in ids {
        var i :| 0 <= i < |ids| && ids[i] == x;
        assert heads[i] in heads;
      }
      if x in HeadIds(heads) {
        var h :| h in heads && h.coach == x;
        var i :| 0 <= i < |heads| && heads[i] == h;
        assert ids[i] == x;
      }
    }
  }

  method GroupByHead(rows: seq<Period>) returns (byHead: map<Id, seq<Period>>)
    ensures forall h :: TeamIn(byHead, h) == TeamOf(rows, h)
  {
    byHead := map[];
    for i := 0 to |rows|
      invariant forall h :: TeamIn(byHead, h) == TeamOf(rows[..i], h)
    {
      var p := rows[i];
      forall h
        ensures TeamOf(rows[..i + 1], h) == TeamOf(rows[..i], h) + if p.parent == h then [p] else []
      {
        assert rows[..i + 1][..i] == rows[..i];
      }
      byHead := byHead[p.parent := TeamIn(byHead, p.parent) + [p]];
    }
    assert rows[..|rows|] == rows;
  }

  lemma OneMoreGroup(groups: seq<CoachPeriods>, head: CoachPeriods, i: nat)
    requires i < |groups|
    ensures var both := Intersection(groups[i].periods, head.periods);
            MemberEntries(groups[..i + 1], head)
            == MemberEntries(groups[..i], head) + if both != [] then [Entry(groups[i].coach, head.coach, both)] else []
  {
    assert groups[..i + 1][..i] == groups[..i];
  }

  method EntriesOf(head: CoachPeriods, groups: seq<CoachPeriods>) returns (out: seq<Entry>)
    ensures out == [Entry(head.coach, head.coach, head.periods)] + MemberEntries(groups, head)
  {
    ghost var own := [Entry(head.coach, head.coach, head.periods)];
    out := [Entry(head.coach, head.coach, head.periods)];
    for i := 0 to |groups|
      invariant out == own + MemberEntries(groups[..i], head)
    {
      OneMoreGroup(groups, head, i);
      var both := IntersectPeriods(groups[i].periods, head.periods);
      if |both| > 0 {
        out := out + [Entry(groups[i].coach, head.coach, both)];
      }
    }
    assert groups[..|groups|] == groups;
  }
}
