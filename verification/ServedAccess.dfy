/** The cached resolver with the real resolution rules: what a served client may do, compared with its coach. */
module ServedAccess {
  import opened Common
  import opened Registry
  import opened Patch
  import Grants
  import R = Resolution
  import C = CachedResolution
  import opened ReadCache

  type Defaults = map<string, Features>

  function OwnInput(plan: string, d: Defaults, g: Option<Grants.Grant>): R.Input {
    R.Input(plan, d, if g.Some? then Some(g.value.features) else None)
  }

  /** A client's grant counts only while the coach that gave it is still the client's coach. */
  function ClientInput(plan: string, d: Defaults, g: Option<Grants.Grant>, link: Id): R.Input {
    R.Input(plan, d, if g.Some? && link != "" && g.value.coach == link then Some(g.value.features) else None)
  }

  /** planOf is each account's payments plan, empty without one. */
  function RulesOf(defs: map<string, FeatureDef>, roleOf: Id -> C.Role,
                   planOf: Id -> string): C.Rules<Defaults, Grants.Grant, R.Resolved> {
    C.Rules(roleOf,
            (id: Id, d: Defaults, g: Option<Grants.Grant>) => R.Computed(defs, COACH, OwnInput(planOf(id), d, g), None),
            (id: Id, d: Defaults, g: Option<Grants.Grant>, link: Id, seen: Option<R.Resolved>) =>
              R.Computed(defs, CLIENT, ClientInput(planOf(id), d, g, link), seen),
            R.Computed(defs, "bypass", R.Input("", map[], None), None))
  }

  /** A coach's grant always counts. */
  lemma CoachGrantCounts(defs: map<string, FeatureDef>, roleOf: Id -> C.Role, planOf: Id -> string, id: Id, d: Defaults,
                         g: Option<Grants.Grant>)
    ensures RulesOf(defs, roleOf, planOf).coach(id, d, g)
            == R.Computed(defs, "coach", R.Input(planOf(id), d, if g == None then None else Some(g.value.features)),
                          None)
  {
    assert OwnInput(planOf(id), d, g) == R.Input(planOf(id), d, if g == None then None else Some(g.value.features));
  }

  /** A client's grant counts exactly while the coach that gave it is the client's coach. */
  lemma GrantsThatCount(defs: map<string, FeatureDef>, roleOf: Id -> C.Role, planOf: Id -> string, id: Id, d: Defaults,
                        g: Option<Grants.Grant>, link: Id, seen: Option<R.Resolved>)
    ensures RulesOf(defs, roleOf, planOf).client(id, d, g, link, seen)
            == R.Computed(defs, "client",
                          R.Input(planOf(id), d,
                                  if g == None || g.value.coach != link || link == "" then None
                                  else Some(g.value.features)),
                          seen)
  {
    assert ClientInput(planOf(id), d, g, link)
        == R.Input(planOf(id), d, if g == None || g.value.coach != link || link == "" then None
                                  else Some(g.value.features));
  }

  /**
   What is written here is what the account gets next: a coach its own grant; a client without a coach no grant
   at all; a client of a coach the grant of that coach, under that coach's resolution.
   */
  lemma WrittenIsServed(defs: map<string, FeatureDef>, roleOf: Id -> C.Role, planOf: Id -> string,
                        s: C.Svc<Defaults, Grants.Grant, R.Resolved>, st: C.Store<Defaults, Grants.Grant>, id: Id,
                        c: C.Clk, inner: C.Clk)
    requires id in st.accounts && !c.userFails && !c.defsFail && !c.grantFails && !inner.userFails && !inner.defsFail
             && !inner.grantFails
    ensures var res := C.Resolve(RulesOf(defs, roleOf, planOf), C.LocalWrite(s, st), id, c, inner).1;
            && (roleOf(id).Coach? ==> res == C.Ok(CoachFrom(defs, planOf, st, id)))
            && (roleOf(id).Client? && id !in st.coachOf ==>
                  res == C.Ok(R.Computed(defs, "client", R.Input(planOf(id), st.defaults, None), None)))
            && (roleOf(id).Client? && id in st.coachOf && st.coachOf[id] != "" && st.coachOf[id] in st.accounts
                && roleOf(st.coachOf[id]).Coach? ==>
                  res == C.Ok(R.Computed(defs, "client",
                                         R.Input(planOf(id), st.defaults,
                                                 if id in st.grants && st.grants[id].coach == st.coachOf[id]
                                                 then Some(st.grants[id].features) else None),
                                         Some(CoachFrom(defs, planOf, st, st.coachOf[id])))))
  {
    var rules := RulesOf(defs, roleOf, planOf);
    C.FirstResolveAfterWrite(rules, s, st, id, c, inner);
    CoachGrantCounts(defs, roleOf, planOf, id, st.defaults, C.GrantOf(st, id));
    var link := C.LinkOf(st, id);
    if roleOf(id).Client? {
      if id in st.coachOf {
        CoachGrantCounts(defs, roleOf, planOf, link, st.defaults, C.GrantOf(st, link));
        GrantsThatCount(defs, roleOf, planOf, id, st.defaults, C.GrantOf(st, id), link,
                        Some(C.Own(rules, link, st.defaults, C.GrantOf(st, link))));
      } else {
        GrantsThatCount(defs, roleOf, planOf, id, st.defaults, C.GrantOf(st, id), link, None);
      }
    }
  }

  /** A coach's resolution from its stored grant. */
  function CoachFrom(defs: map<string, FeatureDef>, planOf: Id -> string, st: C.Store<Defaults, Grants.Grant>,
                     id: Id): R.Resolved {
    R.Computed(defs, "coach",
               R.Input(planOf(id), st.defaults, if id in st.grants then Some(st.grants[id].features) else None), None)
  }

  lemma OthersHaveAll(defs: map<string, FeatureDef>, roleOf: Id -> C.Role, planOf: Id -> string, k: string)
    requires k in defs
    ensures RulesOf(defs, roleOf, planOf).other[k]
            == R.FeatureState(true, R.Default, map l | l in defs[k].limits :: None)
  {
  }

  /** No more than the other resolution allows, feature by feature, where the feature applies to both. */
  predicate NoMoreThan(defs: map<string, FeatureDef>, client: R.Resolved, coach: R.Resolved) {
    && client.Keys == coach.Keys == defs.Keys
    && forall k :: k in defs && CLIENT in defs[k].appliesTo && !coach[k].source.NotApplicable? ==>
         && (client[k].enabled ==> coach[k].enabled)
         && client[k].limits.Keys == coach[k].limits.Keys == defs[k].limits
         && forall l :: l in defs[k].limits ==> R.AtMost(client[k].limits[l], coach[k].limits[l])
  }

  lemma CappedIsNoMore(defs: map<string, FeatureDef>, inp: R.Input, coach: R.Resolved)
    requires WellFormed(defs) && R.WellShaped(defs, coach)
    ensures NoMoreThan(defs, R.Computed(defs, CLIENT, inp, Some(coach)), coach)
  {
    var client := R.Computed(defs, CLIENT, inp, Some(coach));
    forall k | k in defs && CLIENT in defs[k].appliesTo && !coach[k].source.NotApplicable?
      ensures client[k].enabled ==> coach[k].enabled
      ensures client[k].limits.Keys == coach[k].limits.Keys == defs[k].limits
      ensures forall l :: l in defs[k].limits ==> R.AtMost(client[k].limits[l], coach[k].limits[l])
    {
      R.ClientStaysUnderCoach(defs, inp, coach, k);
    }
  }

  /** Every own resolution is well shaped, whoever's it is. */
  lemma OwnIsWellShaped(defs: map<string, FeatureDef>, roleOf: Id -> C.Role, planOf: Id -> string, id: Id, d: Defaults,
                        g: Option<Grants.Grant>)
    requires WellFormed(defs)
    ensures var own := C.Own(RulesOf(defs, roleOf, planOf), id, d, g);
            R.WellShaped(defs, own) && R.ChildrenFollowParents(defs, own)
  {
    R.AccountsResolveWell(defs, COACH, OwnInput(planOf(id), d, g));
    R.AccountsResolveWell(defs, "bypass", R.Input("", map[], None));
  }

  /**
   End to end: in any run of remote writes, local writes and resolutions, a served client result is the
   resolution of one recent store content. When it saw a coach, the client has, feature by feature, no more
   than that coach resolves to from a grant less than two lives and two lags old, and its children still
   follow their parents; when it saw none, there was none to see.
   */
  lemma ServedUnderRecentCoach(defs: map<string, FeatureDef>, roleOf: Id -> C.Role, planOf: Id -> string, start: Time,
                               st: C.Store<Defaults, Grants.Grant>, acts: seq<C.Action<Defaults, Grants.Grant>>,
                                 lag: int, id: Id, c: C.Clk, inner: C.Clk)
    requires WellFormed(defs) && lag >= 0 && roleOf(id).Client?
    requires C.LinksOk(RulesOf(defs, roleOf, planOf), st)
    requires var rules := RulesOf(defs, roleOf, planOf);
             var y := C.System(C.Svc(st, map[], map[]), [C.Stamp(start, st)], start);
             C.AllLegal(rules, y, acts, lag) && C.Legal(rules, C.Run(rules, y, acts), C.Ask(id, c, inner), lag)
    ensures var rules := RulesOf(defs, roleOf, planOf);
            var y := C.Run(rules, C.System(C.Svc(st, map[], map[]), [C.Stamp(start, st)], start), acts);
            var res := C.Resolve(rules, y.s, id, c, inner).1;
            res.Ok? ==>
              exists r, k, d, seen ::
                && c.check - 30 * SECOND - lag < r && C.StampAt(y.h, k, r)
                   && C.DefaultsRead(y.h, r, 30 * SECOND + lag, d)
                && res.val == rules.client(id, d, C.GrantOf(y.h[k].store, id), C.LinkOf(y.h[k].store, id), seen)
                && match seen
                   case None => C.LinkOf(y.h[k].store, id) == "" || C.LinkOf(y.h[k].store, id) !in y.h[k].store.accounts
                   case Some(coach) => C.CoachAfter(rules, y.h, C.LinkOf(y.h[k].store, id),
                                                    c.check - 60 * SECOND - 2 * lag,
                                                    lag, coach)
                                       && NoMoreThan(defs, res.val, coach) && R.ChildrenFollowParents(defs, res.val)
  {
    var rules := RulesOf(defs, roleOf, planOf);
    C.ServedIsRecent(rules, start, st, acts, lag, id, c, inner);
    var y := C.Run(rules, C.System(C.Svc(st, map[], map[]), [C.Stamp(start, st)], start), acts);
    var res := C.Resolve(rules, y.s, id, c, inner).1;
    if res.Ok? {
      var r, k, d, seen :|
        && c.check - 30 * SECOND - lag < r && C.StampAt(y.h, k, r) && C.DefaultsRead(y.h, r, 30 * SECOND + lag, d)
        && res.val == rules.client(id, d, C.GrantOf(y.h[k].store, id), C.LinkOf(y.h[k].store, id), seen)
        && (seen.None? ==> C.LinkOf(y.h[k].store, id) == "" || C.LinkOf(y.h[k].store, id) !in y.h[k].store.accounts)
        && (seen.Some? ==> C.CoachAfter(rules, y.h, C.LinkOf(y.h[k].store, id), c.check - 60 * SECOND - 2 * lag, lag,
                                        seen.value));
      if seen.Some? {
        var link := C.LinkOf(y.h[k].store, id);
        CoachAfterIsWellShaped(defs, roleOf, planOf, y.h, link, c.check - 60 * SECOND - 2 * lag, lag, seen.value);
        var inp := ClientInput(planOf(id), d, C.GrantOf(y.h[k].store, id), link);
        CappedIsNoMore(defs, inp, seen.value);
        R.CapKeepsParentRule(defs, inp, seen.value);
      }
    }
  }

  lemma CoachAfterIsWellShaped(defs: map<string, FeatureDef>, roleOf: Id -> C.Role, planOf: Id -> string,
                               h: seq<C.Stamp<Defaults, Grants.Grant>>,
                               link: Id, after: Time, lag: int, coach: R.Resolved)
    requires WellFormed(defs) && C.CoachAfter(RulesOf(defs, roleOf, planOf), h, link, after, lag, coach)
    ensures R.WellShaped(defs, coach) && R.ChildrenFollowParents(defs, coach)
  {
    var rules := RulesOf(defs, roleOf, planOf);
    var r, k, d :| after < r && C.StampAt(h, k, r) && C.DefaultsRead(h, r, 30 * SECOND + lag, d)
        && coach == C.Own(rules, link, d, C.GrantOf(h[k].store, link));
    OwnIsWellShaped(defs, roleOf, planOf, link, d, C.GrantOf(h[k].store, link));
  }
}
