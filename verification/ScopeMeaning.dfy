/** What a scope says, told by the membership history alone. */
module ScopeMeaning {
  import opened Common
  import opened Periods
  import opened Intervals
  import opened Scope

  /** Two questions about a range: does it hold this instant, and is it still open. */
  datatype Query = AtTime(t: Time) | Open

  predicate Holds(q: Query, r: Range) {
    if q.Open? then r.to.None? else In(q.t, r)
  }

  ghost predicate Has(q: Query, rs: seq<Range>) {
    exists i :: 0 <= i < |rs| && Holds(q, rs[i])
  }

  ghost predicate Was(q: Query, ps: seq<Period>, member: Id) {
    exists i :: 0 <= i < |ps| && ps[i].member == member && Holds(q, RangeOf(ps[i]))
  }

  ghost predicate GroupHas(q: Query, groups: seq<CoachPeriods>, member: Id) {
    exists i :: 0 <= i < |groups| && groups[i].coach == member && Has(q, groups[i].periods)
  }

  ghost predicate EntryHas(q: Query, es: seq<Entry>, coach: Id, head: Id) {
    exists i :: 0 <= i < |es| && es[i].coach == coach && es[i].head == head && Has(q, es[i].periods)
  }

  /** Member belonged to parent: at the instant asked for, or now. */
  ghost predicate Belonged(q: Query, history: seq<Period>, kind: Kind, parent: Id, member: Id) {
    exists i :: 0 <= i < |history| && history[i].kind == kind && history[i].parent == parent
                && history[i].member == member
                && Holds(q, RangeOf(history[i]))
  }

  lemma IntersectionHas(q: Query, a: seq<Range>, b: seq<Range>)
    ensures Has(q, Intersection(a, b)) <==> Has(q, a) && Has(q, b)
  {
    var r := Intersection(a, b);
    if q.Open? {
      IntersectionShape(a, b);
      assert forall rs: seq<Range> :: Has(q, rs) <==> Intervals.HasOpen(rs);
    } else {
      IntersectionIsExact(a, b, q.t);
      assert forall rs: seq<Range> :: Has(q, rs) <==> Covered(q.t, rs);
    }
  }

  lemma {:induction false} RangesHave(q: Query, ps: seq<Period>, member: Id)
    ensures Has(q, RangesOf(ps, member)) <==> Was(q, ps, member)
    decreases |ps|
  {
    if ps != [] {
      var most, last := ps[..|ps| - 1], ps[|ps| - 1];
      RangesHave(q, most, member);
      var tail := if last.member == member then [RangeOf(last)] else [];
      var before := RangesOf(most, member);
      assert forall i :: 0 <= i < |before| ==> (before + tail)[i] == before[i];
      assert forall i :: 0 <= i < |tail| ==> (before + tail)[|before| + i] == tail[i];
      assert RangesOf(ps, member) == before + tail;
      assert Has(q, tail) <==> last.member == member && Holds(q, RangeOf(last)) by {
        assert tail != [] ==> tail[0] == RangeOf(last);
      }
      assert Has(q, before + tail) <==> Has(q, before) || Has(q, tail);
      assert ps[|ps| - 1] == last && forall i :: 0 <= i < |most| ==> ps[i] == most[i];
      assert Was(q, ps, member) <==> Was(q, most, member) || (last.member == member && Holds(q, RangeOf(last)));
    }
  }

  lemma SortedHas(q: Query, rs: seq<Range>)
    ensures Has(q, Sorted(rs, Start)) <==> Has(q, rs)
  {
    SortIsStable(rs, Start);
    if q.Open? {
      SameElementsSameShape(rs, Sorted(rs, Start));
      SameElementsSameShape(Sorted(rs, Start), rs);
      assert forall s: seq<Range> :: Has(q, s) <==> Intervals.HasOpen(s);
    } else {
      SameElementsSameCover(rs, Sorted(rs, Start), q.t);
      assert forall s: seq<Range> :: Has(q, s) <==> Covered(q.t, s);
    }
  }

  lemma GroupsHave(q: Query, ps: seq<Period>, member: Id)
    ensures GroupHas(q, Grouped(ps), member) <==> Was(q, ps, member)
  {
    RangesHave(q, ps, member);
    SortedHas(q, RangesOf(ps, member));
    if member in Members(ps) {
      var i :| 0 <= i < |Members(ps)| && Members(ps)[i] == member;
      assert Grouped(ps)[i] == CoachPeriods(member, Sorted(RangesOf(ps, member), Start));
    } else {
      StrangersHaveNoRanges(ps, member);
    }
  }

  lemma EntryAppend(q: Query, es: seq<Entry>, fs: seq<Entry>, coach: Id, head: Id)
    ensures EntryHas(q, es + fs, coach, head) <==> EntryHas(q, es, coach, head) || EntryHas(q, fs, coach, head)
  {
    assert forall i :: 0 <= i < |es| ==> (es + fs)[i] == es[i];
    assert forall i :: 0 <= i < |fs| ==> (es + fs)[|es| + i] == fs[i];
  }

  lemma GroupAppend(q: Query, gs: seq<CoachPeriods>, hs: seq<CoachPeriods>, member: Id)
    ensures GroupHas(q, gs + hs, member) <==> GroupHas(q, gs, member) || GroupHas(q, hs, member)
  {
    assert forall i :: 0 <= i < |gs| ==> (gs + hs)[i] == gs[i];
    assert forall i :: 0 <= i < |hs| ==> (gs + hs)[|gs| + i] == hs[i];
  }

  lemma OneEntry(q: Query, e: Entry, coach: Id, head: Id)
    ensures EntryHas(q, [e], coach, head) <==> e.coach == coach && e.head == head && Has(q, e.periods)
  {
    assert [e][0] == e;
  }

  lemma OneGroup(q: Query, g: CoachPeriods, member: Id)
    ensures GroupHas(q, [g], member) <==> g.coach == member && Has(q, g.periods)
  {
    assert [g][0] == g;
  }

  /** The entry of one member, if there is one. */
  function MemberEntry(m: CoachPeriods, head: CoachPeriods): seq<Entry> {
    var both := Intersection(m.periods, head.periods);
    if both != [] then [Entry(m.coach, head.coach, both)] else []
  }

  lemma MemberEntryHas(q: Query, m: CoachPeriods, head: CoachPeriods, coach: Id, h: Id)
    ensures EntryHas(q, MemberEntry(m, head), coach, h) <==>
              m.coach == coach && head.coach == h && Has(q, m.periods) && Has(q, head.periods)
  {
    var both := Intersection(m.periods, head.periods);
    IntersectionHas(q, m.periods, head.periods);
    OneEntry(q, Entry(m.coach, head.coach, both), coach, h);
  }

  lemma {:induction false} MemberEntriesHave(q: Query, groups: seq<CoachPeriods>, head: CoachPeriods, coach: Id, h: Id)
    ensures EntryHas(q, MemberEntries(groups, head), coach, h) <==>
              h == head.coach && GroupHas(q, groups, coach) && Has(q, head.periods)
    decreases |groups|
  {
    if groups != [] {
      var most, m := groups[..|groups| - 1], groups[|groups| - 1];
      assert MemberEntries(groups, head) == MemberEntries(most, head) + MemberEntry(m, head);
      assert groups == most + [m];
      MemberEntriesHave(q, most, head, coach, h);
      MemberEntryHas(q, m, head, coach, h);
      OneGroup(q, m, coach);
      EntryAppend(q, MemberEntries(most, head), MemberEntry(m, head), coach, h);
      GroupAppend(q, most, [m], coach);
    }
  }

  lemma {:induction false} AllEntriesHave(q: Query, heads: seq<CoachPeriods>, rows: seq<Period>, coach: Id, h: Id)
    ensures EntryHas(q, AllEntries(heads, rows), coach, h) <==>
              GroupHas(q, heads, h) && (coach == h || Was(q, TeamOf(rows, h), coach))
    decreases |heads|
  {
    if heads != [] {
      var most, head := heads[..|heads| - 1], heads[|heads| - 1];
      var groups := Grouped(TeamOf(rows, head.coach));
      AllEntriesHave(q, most, rows, coach, h);
      EntryAppend(q, AllEntries(most, rows), HeadEntries(head, rows), coach, h);
      EntryAppend(q, [Entry(head.coach, head.coach, head.periods)], MemberEntries(groups, head), coach, h);
      OneEntry(q, Entry(head.coach, head.coach, head.periods), coach, h);
      MemberEntriesHave(q, groups, head, coach, h);
      GroupsHave(q, TeamOf(rows, head.coach), coach);
      GroupAppend(q, most, [head], h);
      OneGroup(q, head, h);
      assert heads == most + [head];
    }
  }

  lemma {:induction false} KeptHeadsHave(q: Query, heads: seq<CoachPeriods>, only: Id, h: Id)
    ensures GroupHas(q, KeptHeads(heads, only), h) <==> (only == "" || h == only) && GroupHas(q, heads, h)
    decreases |heads|
  {
    if heads != [] {
      var most, head := heads[..|heads| - 1], heads[|heads| - 1];
      KeptHeadsHave(q, most, only, h);
      GroupAppend(q, KeptHeads(most, only), if only == "" || head.coach == only then [head] else [], h);
      GroupAppend(q, most, [head], h);
      OneGroup(q, head, h);
      assert heads == most + [head];
    }
  }

  /** Being in a listing of some parents' periods, and in one parent's share of it. */
  lemma ListedWas(q: Query, history: seq<Period>, kind: Kind, parents: set<Id>, parent: Id, member: Id)
    requires parent in parents
    ensures Was(q, TeamOf(Listed(history, kind, parents), parent), member) <==>
              Belonged(q, history, kind, parent, member)
  {
    var rows := TeamOf(Listed(history, kind, parents), parent);
    if Was(q, rows, member) {
      var i :| 0 <= i < |rows| && rows[i].member == member && Holds(q, RangeOf(rows[i]));
      TeamOfIsExact(Listed(history, kind, parents), parent, rows[i]);
      ListedIsExact(history, kind, parents, rows[i]);
      var j :| 0 <= j < |history| && history[j] == rows[i];
    }
    if Belonged(q, history, kind, parent, member) {
      var j :| 0 <= j < |history| && history[j].kind == kind && history[j].parent == parent
          && history[j].member == member && Holds(q, RangeOf(history[j]));
      TeamOfIsExact(Listed(history, kind, parents), parent, history[j]);
      ListedIsExact(history, kind, parents, history[j]);
      var i :| 0 <= i < |rows| && rows[i] == history[j];
    }
  }

  lemma {:induction false} TeamOfIsExact(rows: seq<Period>, parent: Id, p: Period)
    ensures p in TeamOf(rows, parent) <==> p in rows && p.parent == parent
    decreases |rows|
  {
    if rows != [] {
      TeamOfIsExact(rows[..|rows| - 1], parent, p);
      assert rows == rows[..|rows| - 1] + [rows[|rows| - 1]];
    }
  }

  /** Every row of a listing of one parent is that parent's. */
  lemma OneParentListing(history: seq<Period>, kind: Kind, parent: Id)
    ensures TeamOf(Listed(history, kind, {parent}), parent) == Listed(history, kind, {parent})
  {
    var rows := Listed(history, kind, {parent});
    forall i | 0 <= i < |rows|
      ensures rows[i].parent == parent
    {
      ListedIsExact(history, kind, {parent}, rows[i]);
    }
    WholeTeam(rows, parent);
  }

  lemma {:induction false} WholeTeam(rows: seq<Period>, parent: Id)
    requires forall i :: 0 <= i < |rows| ==> rows[i].parent == parent
    ensures TeamOf(rows, parent) == rows
    decreases |rows|
  {
    if rows != [] {
      WholeTeam(rows[..|rows| - 1], parent);
    }
  }

  /**
   A gym's scope shows a coach under a head exactly when, at that instant, the head was in the gym and the
   coach was the head or in the head's team; a head filter keeps that head only. The same holds of "now".
   */
  lemma GymScopeMeaning(q: Query, history: seq<Period>, gym: Id, only: Id, coach: Id, head: Id)
    ensures EntryHas(q, GymEntries(history, gym, only), coach, head) <==>
            && (only == "" || head == only)
            && Belonged(q, history, GymKind, gym, head)
            && (coach == head || Belonged(q, history, TeamKind, head, coach))
  {
    var all := Grouped(Listed(history, GymKind, {gym}));
    var heads := HeadsInScope(history, gym, only);
    var rows := Listed(history, TeamKind, HeadIds(heads));
    AllEntriesHave(q, heads, rows, coach, head);
    KeptHeadsHave(q, all, only, head);
    GroupsHave(q, Listed(history, GymKind, {gym}), head);
    OneParentListing(history, GymKind, gym);
    ListedWas(q, history, GymKind, {gym}, gym, head);
    if GroupHas(q, heads, head) {
      var i :| 0 <= i < |heads| && heads[i].coach == head && Has(q, heads[i].periods);
      assert heads[i] in heads;
      ListedWas(q, history, TeamKind, HeadIds(heads), head, coach);
    }
  }

  /** A head coach's scope: the head since the promotion, and each coach while in the team. */
  lemma TeamScopeMeaning(q: Query, history: seq<Period>, head: Id, since: Time, coach: Id, h: Id)
    ensures EntryHas(q, TeamEntries(history, head, since), coach, h) <==>
            h == head && ((coach == head && (q.AtTime? ==> since <= q.t))
                          || Belonged(q, history, TeamKind, head, coach))
  {
    var rows := Listed(history, TeamKind, {head});
    var groups := Grouped(rows);
    var own := [Entry(head, head, [Range(since, None)])];
    EntryAppend(q, own, AsEntries(groups, head), coach, h);
    OneEntry(q, Entry(head, head, [Range(since, None)]), coach, h);
    assert Has(q, [Range(since, None)]) <==> (q.AtTime? ==> since <= q.t) by {
      assert [Range(since, None)][0] == Range(since, None);
    }
    GroupsHave(q, rows, coach);
    OneParentListing(history, TeamKind, head);
    ListedWas(q, history, TeamKind, {head}, head, coach);
    assert EntryHas(q, AsEntries(groups, head), coach, h) <==> h == head && GroupHas(q, groups, coach) by {
      assert forall i :: 0 <= i < |groups| ==>
               AsEntries(groups, head)[i] == Entry(groups[i].coach, head, groups[i].periods);
    }
  }

  ghost predicate IsCurrent(es: seq<Entry>, coach: Id) {
    exists i :: 0 <= i < |es| && es[i].coach == coach && Intervals.HasOpen(es[i].periods)
  }

  /** The current coaches are those with an open entry, each once. */
  lemma {:induction false} CurrentIdsAreExact(es: seq<Entry>)
    ensures forall c :: c in CurrentIds(es) <==> IsCurrent(es, c)
    ensures forall i, j :: 0 <= i < j < |CurrentIds(es)| ==> CurrentIds(es)[i] != CurrentIds(es)[j]
    decreases |es|
  {
    if es != [] {
      var most, last := es[..|es| - 1], es[|es| - 1];
      CurrentIdsAreExact(most);
      assert forall i :: 0 <= i < |most| ==> es[i] == most[i];
      forall c
        ensures IsCurrent(es, c) <==> IsCurrent(most, c) || (last.coach == c && Intervals.HasOpen(last.periods))
      {
        assert es[|es| - 1] == last;
      }
    }
  }

  /** They come in the order their first open entries do: later entries only add behind. */
  lemma {:induction false} CurrentIdsKeepOrder(es: seq<Entry>, i: nat)
    requires i <= |es|
    ensures CurrentIds(es[..i]) <= CurrentIds(es)
    decreases |es|
  {
    if i < |es| {
      assert es[..|es| - 1][..i] == es[..i];
      CurrentIdsKeepOrder(es[..|es| - 1], i);
    } else {
      assert es[..i] == es;
    }
  }

  /** Who is current in a gym's scope: heads now in the gym, and coaches now in the team of such a head. */
  lemma GymScopeCurrent(history: seq<Period>, gym: Id, only: Id, coach: Id)
    ensures coach in CurrentIds(GymEntries(history, gym, only)) <==>
            exists head :: (only == "" || head == only) && Belonged(Open, history, GymKind, gym, head)
                           && (coach == head || Belonged(Open, history, TeamKind, head, coach))
  {
    var es := GymEntries(history, gym, only);
    CurrentIdsAreExact(es);
    assert forall rs: seq<Range> :: Has(Open, rs) <==> Intervals.HasOpen(rs);
    if IsCurrent(es, coach) {
      var i :| 0 <= i < |es| && es[i].coach == coach && Intervals.HasOpen(es[i].periods);
      assert EntryHas(Open, es, coach, es[i].head);
      GymScopeMeaning(Open, history, gym, only, coach, es[i].head);
    }
    forall head | (only == "" || head == only) && Belonged(Open, history, GymKind, gym, head)
                  && (coach == head || Belonged(Open, history, TeamKind, head, coach))
      ensures IsCurrent(es, coach)
    {
      GymScopeMeaning(Open, history, gym, only, coach, head);
    }
  }

  ghost predicate ShownHas(q: Query, cs: seq<ScopeCoach>, coach: Id, head: Id) {
    exists i :: 0 <= i < |cs| && cs[i].coach == coach && cs[i].head == head && Has(q, cs[i].periods)
  }

  /** Narrowing to one coach keeps that coach's entries; showing them loses nothing. */
  lemma {:induction false} KeptEntriesHave(q: Query, es: seq<Entry>, only: Id, coach: Id, head: Id)
    ensures EntryHas(q, KeptEntries(es, only), coach, head) <==>
              (only == "" || coach == only) && EntryHas(q, es, coach, head)
    decreases |es|
  {
    if es != [] {
      var most, last := es[..|es| - 1], es[|es| - 1];
      KeptEntriesHave(q, most, only, coach, head);
      EntryAppend(q, KeptEntries(most, only), if only == "" || last.coach == only then [last] else [], coach, head);
      EntryAppend(q, most, [last], coach, head);
      OneEntry(q, last, coach, head);
      assert es == most + [last];
    }
  }

  lemma ShownIsEntries(q: Query, es: seq<Entry>, coach: Id, head: Id)
    ensures ShownHas(q, Shown(es), coach, head) <==> EntryHas(q, es, coach, head)
  {
    assert forall i :: 0 <= i < |es| ==>
             Shown(es)[i].coach == es[i].coach && Shown(es)[i].head == es[i].head
               && Shown(es)[i].periods == es[i].periods;
  }

  lemma CurrentMeansOpen(es: seq<Entry>, coach: Id)
    ensures coach in CurrentIds(es) <==> exists head :: EntryHas(Open, es, coach, head)
  {
    CurrentIdsAreExact(es);
    assert forall rs: seq<Range> :: Has(Open, rs) <==> Intervals.HasOpen(rs);
    if IsCurrent(es, coach) {
      var i :| 0 <= i < |es| && es[i].coach == coach && Intervals.HasOpen(es[i].periods);
      assert EntryHas(Open, es, coach, es[i].head);
    }
  }
}
