/** Membership history: a row says from when to when a member had a parent; an open row has no end. */
module Periods {
  import opened Common

  datatype Kind = TeamKind | GymKind

  datatype Period = Period(kind: Kind, member: Id, parent: Id, start: Time, end: Option<Time>, reason: string)

  predicate IsOpen(p: Period, kind: Kind, member: Id) {
    p.kind == kind && p.member == member && p.end.None?
  }

  /** What the partial unique index enforces: no two open rows of one member and kind. */
  ghost predicate UniqueOpen(ps: seq<Period>) {
    forall i, j :: 0 <= i < j < |ps| && IsOpen(ps[i], ps[i].kind, ps[i].member) ==>
             !IsOpen(ps[j], ps[i].kind, ps[i].member)
  }

  ghost predicate HasOpen(ps: seq<Period>, kind: Kind, member: Id) {
    exists i :: 0 <= i < |ps| && IsOpen(ps[i], kind, member)
  }

  /** Where the member is now, according to the history. */
  ghost function OpenParent(ps: seq<Period>, kind: Kind, member: Id): Option<Id> {
    if HasOpen(ps, kind, member) then
      var i :| 0 <= i < |ps| && IsOpen(ps[i], kind, member);
      Some(ps[i].parent)
    else None
  }

  lemma OpenParentAt(ps: seq<Period>, i: nat)
    requires UniqueOpen(ps) && i < |ps| && ps[i].end.None?
    ensures OpenParent(ps, ps[i].kind, ps[i].member) == Some(ps[i].parent)
  {
    assert IsOpen(ps[i], ps[i].kind, ps[i].member);
  }

  lemma OpenParentMeaning(ps: seq<Period>)
    requires UniqueOpen(ps)
    ensures forall k, m, p :: OpenParent(ps, k, m) == Some(p) <==>
                              exists i :: 0 <= i < |ps| && IsOpen(ps[i], k, m) && ps[i].parent == p
  {
    forall k, m, p
      ensures OpenParent(ps, k, m) == Some(p) <==> exists i :: 0 <= i < |ps| && IsOpen(ps[i], k, m) && ps[i].parent == p
    {
      forall i | 0 <= i < |ps| && IsOpen(ps[i], k, m)
        ensures OpenParent(ps, k, m) == Some(ps[i].parent)
      {
        OpenParentAt(ps, i);
      }
    }
  }

  // ---- the three writes ----

  function CloseRow(p: Period, at: Time, reason: string): Period {
    p.(end := Some(at), reason := reason)
  }

  function Closed(ps: seq<Period>, kind: Kind, member: Id, at: Time, reason: string): seq<Period> {
    seq(|ps|, i requires 0 <= i < |ps| => if IsOpen(ps[i], kind, member) then CloseRow(ps[i], at, reason) else ps[i])
  }

  function ClosedByParent(ps: seq<Period>, kind: Kind, parent: Id, at: Time, reason: string): seq<Period> {
    seq(|ps|, i requires 0 <= i < |ps| =>
      if IsOpen(ps[i], kind, ps[i].member) && ps[i].parent == parent then CloseRow(ps[i], at, reason) else ps[i])
  }

  /** No-op when the member is already there; a period elsewhere is closed at the same instant. */
  ghost function Opened(ps: seq<Period>, kind: Kind, member: Id, parent: Id, reason: string, at: Time): seq<Period> {
    if OpenParent(ps, kind, member) == Some(parent) then ps
    else Closed(ps, kind, member, at, reason) + [Period(kind, member, parent, at, None, reason)]
  }

  // ---- what the writes do to "where is the member now" ----

  lemma ClosedMoves(ps: seq<Period>, kind: Kind, member: Id, at: Time, reason: string)
    requires UniqueOpen(ps)
    ensures var ps' := Closed(ps, kind, member, at, reason);
            && UniqueOpen(ps')
            && forall k, m :: OpenParent(ps', k, m) == if k == kind && m == member then None else OpenParent(ps, k, m)
  {
    var ps' := Closed(ps, kind, member, at, reason);
    forall k, m
      ensures OpenParent(ps', k, m) == if k == kind && m == member then None else OpenParent(ps, k, m)
    {
      SameOpen(ps, ps', k, m, !(k == kind && m == member));
    }
  }

  /** ps' has, for this member, exactly the open rows of ps (keep) or none of them (!keep). */
  lemma SameOpen(ps: seq<Period>, ps': seq<Period>, kind: Kind, member: Id, keep: bool)
    requires UniqueOpen(ps) && |ps| == |ps'|
    requires forall i :: 0 <= i < |ps| ==> (IsOpen(ps'[i], kind, member) <==> keep && IsOpen(ps[i], kind, member))
    requires forall i :: 0 <= i < |ps| ==> ps'[i].parent == ps[i].parent
    ensures OpenParent(ps', kind, member) == if keep then OpenParent(ps, kind, member) else None
  {
    if keep && HasOpen(ps, kind, member) {
      var i :| 0 <= i < |ps| && IsOpen(ps[i], kind, member);
      assert IsOpen(ps'[i], kind, member);
      OpenParentAt(ps, i);
      forall j | 0 <= j < |ps'| && IsOpen(ps'[j], kind, member)
        ensures j == i
      {
        assert IsOpen(ps[j], kind, member);
      }
    }
  }

  lemma ClosedByParentMoves(ps: seq<Period>, kind: Kind, parent: Id, at: Time, reason: string)
    requires UniqueOpen(ps)
    ensures var ps' := ClosedByParent(ps, kind, parent, at, reason);
            && UniqueOpen(ps')
            && forall k, m :: OpenParent(ps', k, m) ==
                              if k == kind && OpenParent(ps, k, m) == Some(parent) then None else OpenParent(ps, k, m)
  {
    var ps' := ClosedByParent(ps, kind, parent, at, reason);
    forall k, m
      ensures OpenParent(ps', k, m) == if k == kind && OpenParent(ps, k, m) == Some(parent) then None
              else OpenParent(ps, k, m)
    {
      forall i | 0 <= i < |ps| && IsOpen(ps[i], k, m)
        ensures OpenParent(ps, k, m) == Some(ps[i].parent)
      {
        OpenParentAt(ps, i);
      }
      SameOpen(ps, ps', k, m, !(k == kind && OpenParent(ps, k, m) == Some(parent)));
    }
  }

  lemma OpenedMoves(ps: seq<Period>, kind: Kind, member: Id, parent: Id, reason: string, at: Time)
    requires UniqueOpen(ps)
    ensures var ps' := Opened(ps, kind, member, parent, reason, at);
            && UniqueOpen(ps')
            && forall k, m :: OpenParent(ps', k, m) == if k == kind && m == member then Some(parent)
                              else OpenParent(ps, k, m)
  {
    if OpenParent(ps, kind, member) != Some(parent) {
      var mid, row := Closed(ps, kind, member, at, reason), Period(kind, member, parent, at, None, reason);
      ClosedMoves(ps, kind, member, at, reason);
      assert OpenParent(mid, kind, member).None?;
      forall i | 0 <= i < |mid|
        ensures !IsOpen(mid[i], kind, member)
      {
        assert !HasOpen(mid, kind, member);
      }
      var ps' := mid + [row];
      assert UniqueOpen(ps');
      forall k, m
        ensures OpenParent(ps', k, m) == if k == kind && m == member then Some(parent) else OpenParent(mid, k, m)
      {
        if k == kind && m == member {
          OpenParentAt(ps', |mid|);
        } else if HasOpen(mid, k, m) {
          var i :| 0 <= i < |mid| && IsOpen(mid[i], k, m);
          OpenParentAt(mid, i);
          assert ps'[i] == mid[i];
          OpenParentAt(ps', i);
        } else {
          forall i | 0 <= i < |ps'|
            ensures !IsOpen(ps'[i], k, m)
          {
            if i < |mid| { assert ps'[i] == mid[i]; }
          }
        }
      }
    }
  }

  // ---- the shape of a member's history ----

  predicate SameKey(p: Period, q: Period) {
    p.kind == q.kind && p.member == q.member
  }

  /** Rows lie in the past, have no negative length, and a member's rows follow one another. */
  ghost predicate HistoryOk(ps: seq<Period>, now: Time) {
    && (forall i :: 0 <= i < |ps| ==> ps[i].start <= now && (ps[i].end.Some? ==> ps[i].start <= ps[i].end.value <= now))
    && (forall i, j :: 0 <= i < j < |ps| && SameKey(ps[i], ps[j]) ==> ps[i].end.Some? && ps[i].end.value <= ps[j].start)
  }

  /** Instant t lies in the half-open row p. */
  predicate Covers(p: Period, t: Time) {
    p.start <= t && (p.end.Some? ==> t < p.end.value)
  }

  lemma HistoryMeansDisjoint(ps: seq<Period>, now: Time)
    requires HistoryOk(ps, now)
    ensures UniqueOpen(ps)
    ensures forall i, j, t :: 0 <= i < j < |ps| && SameKey(ps[i], ps[j]) && Covers(ps[i], t) ==> !Covers(ps[j], t)
  {
    forall i, j | 0 <= i < j < |ps| && IsOpen(ps[i], ps[i].kind, ps[i].member)
      ensures !IsOpen(ps[j], ps[i].kind, ps[i].member)
    {
      if IsOpen(ps[j], ps[i].kind, ps[i].member) {
        assert SameKey(ps[i], ps[j]);
      }
    }
  }

  lemma ClosedKeepsHistory(ps: seq<Period>, kind: Kind, member: Id, at: Time, reason: string)
    requires HistoryOk(ps, at)
    ensures HistoryOk(Closed(ps, kind, member, at, reason), at)
  {
    var ps' := Closed(ps, kind, member, at, reason);
    forall i, j | 0 <= i < j < |ps'| && SameKey(ps'[i], ps'[j])
      ensures ps'[i].end.Some? && ps'[i].end.value <= ps'[j].start
    {
      assert SameKey(ps[i], ps[j]);
    }
  }

  lemma ClosedByParentKeepsHistory(ps: seq<Period>, kind: Kind, parent: Id, at: Time, reason: string)
    requires HistoryOk(ps, at)
    ensures HistoryOk(ClosedByParent(ps, kind, parent, at, reason), at)
  {
    var ps' := ClosedByParent(ps, kind, parent, at, reason);
    forall i, j | 0 <= i < j < |ps'| && SameKey(ps'[i], ps'[j])
      ensures ps'[i].end.Some? && ps'[i].end.value <= ps'[j].start
    {
      assert SameKey(ps[i], ps[j]);
    }
  }

  lemma OpenedKeepsHistory(ps: seq<Period>, kind: Kind, member: Id, parent: Id, reason: string, at: Time)
    requires HistoryOk(ps, at)
    ensures HistoryOk(Opened(ps, kind, member, parent, reason, at), at)
  {
    ClosedKeepsHistory(ps, kind, member, at, reason);
    var mid := Closed(ps, kind, member, at, reason);
    forall i | 0 <= i < |mid| && mid[i].kind == kind && mid[i].member == member
      ensures mid[i].end.Some?
    {
      assert IsOpen(ps[i], kind, member) || ps[i].end.Some?;
    }
  }

  /** Instant at comes after everything already recorded for this member. */
  ghost predicate After(ps: seq<Period>, kind: Kind, member: Id, at: Time) {
    forall i :: 0 <= i < |ps| && ps[i].kind == kind && ps[i].member == member ==>
             ps[i].start <= at && (ps[i].end.Some? ==> ps[i].end.value <= at)
  }

  /**
   A period opened at an instant of the caller's choosing (a backfill uses the row's assignment time, not
   the clock) keeps the history in order exactly when that instant is past and after all that is recorded.
   */
  lemma OpenedHistoryExact(ps: seq<Period>, kind: Kind, member: Id, parent: Id, reason: string, at: Time, now: Time)
    requires HistoryOk(ps, now)
    ensures HistoryOk(Opened(ps, kind, member, parent, reason, at), now) <==>
            OpenParent(ps, kind, member) == Some(parent) || (at <= now && After(ps, kind, member, at))
  {
    if OpenParent(ps, kind, member) != Some(parent) {
      var mid := Closed(ps, kind, member, at, reason);
      var ps' := Opened(ps, kind, member, parent, reason, at);
      assert ps'[|mid|].start == at;
      if at <= now && After(ps, kind, member, at) {
        forall i, j | 0 <= i < j < |ps'| && SameKey(ps'[i], ps'[j])
          ensures ps'[i].end.Some? && ps'[i].end.value <= ps'[j].start
        {
          assert ps'[i] == mid[i];
          if j < |mid| { assert SameKey(ps[i], ps[j]); }
        }
      } else if HistoryOk(ps', now) {
        forall i | 0 <= i < |ps| && ps[i].kind == kind && ps[i].member == member
          ensures ps[i].start <= at && (ps[i].end.Some? ==> ps[i].end.value <= at)
        {
          assert ps'[i] == mid[i];
          assert SameKey(ps'[i], ps'[|mid|]);
        }
      }
    }
  }
}
