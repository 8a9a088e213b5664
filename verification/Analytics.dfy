/** The analytics service: who may ask, and what the answer says of the membership history. */
module Analytics {
  import opened Common
  import opened Periods
  import opened Intervals
  import opened Scope
  import opened ScopeMeaning

  /** headSince is missing for head coaches flagged before the date was kept. */
  datatype Account = Account(role: string, active: bool, isHead: bool, createdAt: Time, headSince: Option<Time>)

  datatype Reply = Shows(scope: ScopeResult) | Denied | NotFound

  /** The reply shows a coach under a head, at an instant or now, exactly when the history says so. */
  ghost predicate TellsGym(r: ScopeResult, history: seq<Period>, gym: Id, onlyHead: Id, onlyCoach: Id) {
    && (forall q, coach, head :: ShownHas(q, r.coaches, coach, head) <==>
          InGymScope(q, history, gym, onlyHead, onlyCoach, coach, head))
    && (forall coach :: coach in r.currentIds <==>
          exists head :: InGymScope(Open, history, gym, onlyHead, onlyCoach, coach, head))
    && (forall i, j :: 0 <= i < j < |r.currentIds| ==> r.currentIds[i] != r.currentIds[j])
  }

  /** The head was in the gym, and the coach was the head or in the head's team; filters keep one head or one coach. */
  ghost predicate InGymScope(q: Query, history: seq<Period>, gym: Id, onlyHead: Id, onlyCoach: Id, coach: Id,
                             head: Id) {
    && (onlyCoach == "" || coach == onlyCoach) && (onlyHead == "" || head == onlyHead)
    && Belonged(q, history, GymKind, gym, head) && (coach == head || Belonged(q, history, TeamKind, head, coach))
  }

  ghost predicate TellsTeam(r: ScopeResult, history: seq<Period>, head: Id, since: Time, onlyCoach: Id) {
    && (forall q, coach, h :: ShownHas(q, r.coaches, coach, h) <==>
          InTeamScope(q, history, head, since, onlyCoach, coach, h))
    && (forall coach :: coach in r.currentIds <==>
          exists h :: InTeamScope(Open, history, head, since, onlyCoach, coach, h))
    && (forall i, j :: 0 <= i < j < |r.currentIds| ==> r.currentIds[i] != r.currentIds[j])
  }

  ghost predicate InTeamScope(q: Query, history: seq<Period>, head: Id, since: Time, onlyCoach: Id, coach: Id, h: Id) {
    && (onlyCoach == "" || coach == onlyCoach) && h == head
    && ((coach == head && (q.AtTime? ==> since <= q.t)) || Belonged(q, history, TeamKind, head, coach))
  }

  lemma FinishTells(es: seq<Entry>, only: Id, r: ScopeResult)
    requires r == ScopeResult(Shown(KeptEntries(es, only)), CurrentIds(KeptEntries(es, only)))
    ensures forall q, coach, head :: ShownHas(q, r.coaches, coach, head) <==>
              (only == "" || coach == only) && EntryHas(q, es, coach, head)
    ensures forall coach :: coach in r.currentIds <==>
              exists head :: (only == "" || coach == only) && EntryHas(Open, es, coach, head)
    ensures forall i, j :: 0 <= i < j < |r.currentIds| ==> r.currentIds[i] != r.currentIds[j]
  {
    var kept := KeptEntries(es, only);
    forall q, coach, head
      ensures ShownHas(q, r.coaches, coach, head) <==> (only == "" || coach == only) && EntryHas(q, es, coach, head)
    {
      ShownIsEntries(q, kept, coach, head);
      KeptEntriesHave(q, es, only, coach, head);
    }
    forall coach
      ensures coach in r.currentIds <==> exists head :: (only == "" || coach == only) && EntryHas(Open, es, coach, head)
    {
      CurrentMeansOpen(kept, coach);
      forall head
        ensures EntryHas(Open, kept, coach, head) <==> (only == "" || coach == only) && EntryHas(Open, es, coach, head)
      {
        KeptEntriesHave(Open, es, only, coach, head);
      }
    }
    CurrentIdsAreExact(kept);
  }

  lemma GymTold(history: seq<Period>, gym: Id, onlyHead: Id, onlyCoach: Id, r: ScopeResult)
    requires var kept := KeptEntries(GymEntries(history, gym, onlyHead), onlyCoach);
             r == ScopeResult(Shown(kept), CurrentIds(kept))
    ensures TellsGym(r, history, gym, onlyHead, onlyCoach)
  {
    FinishTells(GymEntries(history, gym, onlyHead), onlyCoach, r);
    forall q, coach, head
      ensures InGymScope(q, history, gym, onlyHead, onlyCoach, coach, head)
              <==> (onlyCoach == "" || coach == onlyCoach)
                   && EntryHas(q, GymEntries(history, gym, onlyHead), coach, head)
    {
      GymScopeMeaning(q, history, gym, onlyHead, coach, head);
    }
  }

  lemma TeamTold(history: seq<Period>, head: Id, since: Time, onlyCoach: Id, r: ScopeResult)
    requires var kept := KeptEntries(TeamEntries(history, head, since), onlyCoach);
             r == ScopeResult(Shown(kept), CurrentIds(kept))
    ensures TellsTeam(r, history, head, since, onlyCoach)
  {
    FinishTells(TeamEntries(history, head, since), onlyCoach, r);
    forall q, coach, h
      ensures InTeamScope(q, history, head, since, onlyCoach, coach, h)
              <==> (onlyCoach == "" || coach == onlyCoach) && EntryHas(q, TeamEntries(history, head, since), coach, h)
    {
      TeamScopeMeaning(q, history, head, since, coach, h);
    }
  }

  class AnalyticsService {
    var accounts: map<Id, Account>
    /** The owner of each gym. */
    var gyms: map<Id, Id>
    const store: PeriodStore

    constructor (accounts: map<Id, Account>, gyms: map<Id, Id>, store: PeriodStore)
      ensures this.accounts == accounts && this.gyms == gyms && this.store == store
    {
      this.accounts, this.gyms, this.store := accounts, gyms, store;
    }

    /** A head coach's team. Refused to anyone but an active head coach, who may not name another one. */
    method TeamScope(caller: Id, onlyHead: Id, onlyCoach: Id) returns (r: Reply)
      ensures r.Denied? <==> !(caller in accounts && accounts[caller].role == "coach" && accounts[caller].active
                               && accounts[caller].isHead)
      ensures r.Shows? ==> onlyHead in {"", caller}
                           && TellsTeam(r.scope, store.periods, caller,
                                        accounts[caller].headSince.GetOr(accounts[caller].createdAt), onlyCoach)
      ensures r.NotFound? ==>
                (onlyHead != "" && onlyHead != caller)
                || forall q, h :: !InTeamScope(q, store.periods, caller,
                                               accounts[caller].headSince.GetOr(accounts[caller].createdAt), onlyCoach,
                                                 onlyCoach, h)
    {
      if caller !in accounts || accounts[caller].role != "coach" || !accounts[caller].active
         || !accounts[caller].isHead {
        return Denied;
      }
      var since := accounts[caller].createdAt;
      if accounts[caller].headSince.Some? {
        since := accounts[caller].headSince.value;
      }
      var entries := store.TeamEntriesOf(caller, since, onlyHead);
      if entries.None? {
        return NotFound;
      }
      var res := Finish(entries.value, onlyCoach);
      if res.None? {
        NobodyKept(entries.value, onlyCoach);
        forall q, h
          ensures !InTeamScope(q, store.periods, caller, since, onlyCoach, onlyCoach, h)
        {
          TeamScopeMeaning(q, store.periods, caller, since, onlyCoach, h);
        }
        return NotFound;
      }
      TeamTold(store.periods, caller, since, onlyCoach, res.value);
      return Shows(res.value);
    }

    /** A gym as its active owner sees it. */
    method GymScope(caller: Id, gym: Id, onlyHead: Id, onlyCoach: Id) returns (r: Reply)
      ensures r.Denied? <==> !(caller in accounts && accounts[caller].role == "gym_owner" && accounts[caller].active)
      ensures r.Shows? ==> gym != "" && gym in gyms && gyms[gym] == caller
                           && TellsGym(r.scope, store.periods, gym, onlyHead, onlyCoach)
      ensures r.NotFound? ==>
                gym == "" || gym !in gyms || gyms[gym] != caller
                || (onlyHead != "" && forall q :: !Belonged(q, store.periods, GymKind, gym, onlyHead))
                || (onlyCoach != "" && forall q,
                    head :: !InGymScope(q, store.periods, gym, onlyHead, onlyCoach, onlyCoach, head))
    {
      if caller !in accounts || accounts[caller].role != "gym_owner" || !accounts[caller].active {
        return Denied;
      }
      if gym == "" || gym !in gyms || gyms[gym] != caller {
        return NotFound;
      }
      var entries := store.GymEntriesOf(gym, onlyHead);
      if entries.None? {
        NoSuchHead(store.periods, gym, onlyHead);
        return NotFound;
      }
      var res := Finish(entries.value, onlyCoach);
      if res.None? {
        NobodyKept(entries.value, onlyCoach);
        forall q, head
          ensures !InGymScope(q, store.periods, gym, onlyHead, onlyCoach, onlyCoach, head)
        {
          GymScopeMeaning(q, store.periods, gym, onlyHead, onlyCoach, head);
        }
        return NotFound;
      }
      GymTold(store.periods, gym, onlyHead, onlyCoach, res.value);
      return Shows(res.value);
    }
  }

  lemma NobodyKept(es: seq<Entry>, only: Id)
    requires only != "" && KeptEntries(es, only) == []
    ensures forall q, head :: !EntryHas(q, es, only, head)
  {
    forall q, head
      ensures !EntryHas(q, es, only, head)
    {
      KeptEntriesHave(q, es, only, only, head);
    }
  }

  lemma NoSuchHead(history: seq<Period>, gym: Id, only: Id)
    requires only != "" && HeadsInScope(history, gym, only) == []
    ensures forall q :: !Belonged(q, history, GymKind, gym, only)
  {
    forall q
      ensures !Belonged(q, history, GymKind, gym, only)
    {
      GymScopeMeaning(q, history, gym, only, only, only);
    }
  }
}
