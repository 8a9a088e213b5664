/**
 What an account's resolution says, told by what is stored: its grant before its plan, the plan before the
 default of its role, that before the registry; then the parent, then the coach.
 */
module Precedence {
  import opened Common
  import opened Registry
  import opened Patch
  import R = Resolution

  /** The stored overrides in the order in which they are asked; the default of a role has a plan id of its own. */
  function Asked(role: string, inp: R.Input, n: nat): Option<Features> {
    if n == 0 then inp.grant
    else if n == 1 then if inp.planID != "" && inp.planID in inp.defaults then Some(inp.defaults[inp.planID]) else None
    else
      var default := if role == "client" then "_client" else "_coach";
      if default in inp.defaults then Some(inp.defaults[default]) else None
  }

  function SwitchAt(role: string, inp: R.Input, n: nat, k: string): Option<bool> {
    SwitchOf(Asked(role, inp, n).GetOr(map[]), k)
  }

  function LimitAt(role: string, inp: R.Input, n: nat, k: string, l: string): Option<int> {
    LimitIn(Asked(role, inp, n).GetOr(map[]), k, l)
  }

  /** The first of grant, plan and role default that says whether the feature is on; else the registry. */
  function OwnSwitch(def: FeatureDef, role: string, inp: R.Input, k: string): bool {
    if SwitchAt(role, inp, 0, k).Some? then SwitchAt(role, inp, 0, k).value
    else if SwitchAt(role, inp, 1, k).Some? then SwitchAt(role, inp, 1, k).value
    else if SwitchAt(role, inp, 2, k).Some? then SwitchAt(role, inp, 2, k).value
    else def.defaultEnabled
  }

  /** The first that gives the limit; else it is unlimited. */
  function OwnLimit(role: string, inp: R.Input, k: string, l: string): Option<int> {
    if LimitAt(role, inp, 0, k, l).Some? then LimitAt(role, inp, 0, k, l)
    else if LimitAt(role, inp, 1, k, l).Some? then LimitAt(role, inp, 1, k, l)
    else LimitAt(role, inp, 2, k, l)
  }

  /** Something registered is said of the feature there. */
  predicate Speaks(def: FeatureDef, role: string, inp: R.Input, n: nat, k: string) {
    SwitchAt(role, inp, n, k).Some? || exists l :: l in def.limits && LimitAt(role, inp, n, k, l).Some?
  }

  /** Who had the say, before parent and coach. */
  function OwnSource(def: FeatureDef, role: string, inp: R.Input, k: string): R.Source {
    if Speaks(def, role, inp, 0, k) then R.Override
    else if Speaks(def, role, inp, 1, k) || Speaks(def, role, inp, 2, k) then R.Plan
    else R.Default
  }

  lemma OneSpeaks(def: FeatureDef, role: string, inp: R.Input, n: nat, k: string)
    ensures R.Touches(def, Entry(Asked(role, inp, n).GetOr(map[]), k).GetOr(NO_GRANT)) <==> Speaks(def, role, inp, n, k)
  {
    var g := Entry(Asked(role, inp, n).GetOr(map[]), k).GetOr(NO_GRANT);
    forall l
      ensures l in g.limits.GetOr(map[]) <==> LimitAt(role, inp, n, k, l).Some?
    {
    }
  }

  /** What is asked n-th as layers: one or none. */
  function LayerAt(role: string, inp: R.Input, n: nat): seq<R.Layer> {
    var f := Asked(role, inp, n);
    if f.Some? then [R.Layer(f.value, if n == 0 then R.Override else R.Plan)] else []
  }

  lemma LayersAreAsked(role: string, inp: R.Input)
    requires role == COACH || role == CLIENT
    ensures R.Layers(role, inp) == LayerAt(role, inp, 2) + LayerAt(role, inp, 1) + LayerAt(role, inp, 0)
  {
  }

  /** What the n-th adds to the layers below it. */
  lemma LayerAdds(layers: seq<R.Layer>, role: string, inp: R.Input, n: nat, def: FeatureDef, k: string)
    ensures var all := layers + LayerAt(role, inp, n);
            && R.LastEnabled(all, k, def.defaultEnabled)
               == SwitchAt(role, inp, n, k).GetOr(R.LastEnabled(layers, k, def.defaultEnabled))
            && R.LastSource(all, def, k) == (if Speaks(def, role, inp, n, k) then if n == 0 then R.Override else R.Plan
                                             else R.LastSource(layers, def, k))
            && forall l :: R.LastLimit(all, k, l) == if LimitAt(role, inp, n, k, l).Some?
                           then LimitAt(role, inp, n, k, l)
                                                     else R.LastLimit(layers, k, l)
  {
    OneMoreLayer(layers, LayerAt(role, inp, n), def, k);
    OneSpeaks(def, role, inp, n, k);
  }

  /** The lowest layer stands on the registry. */
  lemma LowestAdds(role: string, inp: R.Input, def: FeatureDef, k: string)
    ensures var low := LayerAt(role, inp, 2);
            && R.LastEnabled(low, k, def.defaultEnabled) == SwitchAt(role, inp, 2, k).GetOr(def.defaultEnabled)
            && R.LastSource(low, def, k) == (if Speaks(def, role, inp, 2, k) then R.Plan else R.Default)
            && forall l :: R.LastLimit(low, k, l) == LimitAt(role, inp, 2, k, l)
  {
    assert [] + LayerAt(role, inp, 2) == LayerAt(role, inp, 2);
    LayerAdds([], role, inp, 2, def, k);
  }

  predicate SaysOwn(layers: seq<R.Layer>, role: string, inp: R.Input, def: FeatureDef, k: string) {
    && R.LastEnabled(layers, k, def.defaultEnabled) == OwnSwitch(def, role, inp, k)
    && R.LastSource(layers, def, k) == OwnSource(def, role, inp, k)
  }

  lemma AskedSayOwn(role: string, inp: R.Input, def: FeatureDef, k: string, low: seq<R.Layer>, mid: seq<R.Layer>,
                    top: seq<R.Layer>)
    requires low == LayerAt(role, inp, 2) && mid == low + LayerAt(role, inp, 1) && top == mid + LayerAt(role, inp, 0)
    ensures SaysOwn(top, role, inp, def, k)
    ensures forall l :: R.LastLimit(top, k, l) == OwnLimit(role, inp, k, l)
  {
    LowestAdds(role, inp, def, k);
    LayerAdds(low, role, inp, 1, def, k);
    LayerAdds(mid, role, inp, 0, def, k);
  }

  lemma OwnIsLayered(role: string, inp: R.Input, def: FeatureDef, k: string)
    requires role == COACH || role == CLIENT
    ensures SaysOwn(R.Layers(role, inp), role, inp, def, k)
    ensures forall l :: R.LastLimit(R.Layers(role, inp), k, l) == OwnLimit(role, inp, k, l)
  {
    LayersAreAsked(role, inp);
    var low := LayerAt(role, inp, 2);
    var mid := low + LayerAt(role, inp, 1);
    AskedSayOwn(role, inp, def, k, low, mid, mid + LayerAt(role, inp, 0));
  }

  lemma OneMoreLayer(layers: seq<R.Layer>, top: seq<R.Layer>, def: FeatureDef, k: string)
    requires |top| <= 1
    ensures var g := if top == [] then NO_GRANT else R.GrantAt(top[0], k);
            && R.LastEnabled(layers + top, k, def.defaultEnabled)
               == g.enabled.GetOr(R.LastEnabled(layers, k, def.defaultEnabled))
            && R.LastSource(layers + top, def, k) == (if R.Touches(def, g) then top[0].source
                                                      else R.LastSource(layers, def, k))
            && forall l :: R.LastLimit(layers + top, k, l) == if l in g.limits.GetOr(map[]) then Some(g.limits.value[l])
                                                              else R.LastLimit(layers, k, l)
  {
    if top == [] {
      assert layers + top == layers;
    } else {
      assert layers + top == layers + [top[0]] && (layers + [top[0]])[..|layers|] == layers;
    }
  }

  /** The parent's own switch, or on when there is none. */
  predicate ParentIsOn(defs: map<string, FeatureDef>, role: string, inp: R.Input, k: string)
    requires k in defs
  {
    var p := defs[k].parent;
    p.Some? && p.value in defs ==> OwnSwitch(defs[p.value], role, inp, p.value)
  }

  /**
   An account of a coach or a client, without a coach over it: on when its own switch and its parent's are,
   each registered limit as told, and the source names who had the last say.
   */
  lemma ResolvedByPrecedence(defs: map<string, FeatureDef>, role: string, inp: R.Input, k: string)
    requires WellFormed(defs) && k in defs && (role == "coach" || role == "client")
    ensures var st := R.Computed(defs, role, inp, None)[k];
            if role in defs[k].appliesTo
            then
              && (st.enabled <==> OwnSwitch(defs[k], role, inp, k) && ParentIsOn(defs, role, inp, k))
              && st.limits == (map l | l in defs[k].limits :: OwnLimit(role, inp, k, l))
              && st.source == if OwnSwitch(defs[k], role, inp, k) && !ParentIsOn(defs, role, inp, k) then R.Parent
                              else OwnSource(defs[k], role, inp, k)
            else st == R.FeatureState(false, R.NotApplicable, map l | l in defs[k].limits :: None)
  {
    OwnIsLayered(role, inp, defs[k], k);
    R.BaseApplies(defs, role, inp, k);
    if defs[k].parent.Some? {
      OwnIsLayered(role, inp, defs[defs[k].parent.value], defs[k].parent.value);
      R.BaseApplies(defs, role, inp, defs[k].parent.value);
    }
  }

  /** The smaller of two limits, None being unlimited. */
  predicate IsSmaller(m: Option<int>, a: Option<int>, b: Option<int>) {
    (m == a || m == b) && (a.Some? ==> m.Some? && m.value <= a.value) && (b.Some? ==> m.Some? && m.value <= b.value)
  }

  /**
   A client under a coach: on when both are, each limit the smaller of both, and capped is what it says when
   the coach took something away. A feature the coach has no part in is the client's own.
   */
  lemma CappedByPrecedence(defs: map<string, FeatureDef>, inp: R.Input, coach: R.Resolved, k: string)
    requires WellFormed(defs) && R.WellShaped(defs, coach) && k in defs
    ensures var own, st, over := R.Computed(defs, "client", inp, None)[k],
                                 R.Computed(defs, "client", inp, Some(coach))[k], coach[k];
            if "client" !in defs[k].appliesTo || over.source.NotApplicable? then st == own
            else
              && (st.enabled <==> own.enabled && over.enabled)
              && st.limits.Keys == defs[k].limits
              && (forall l :: l in defs[k].limits ==> IsSmaller(st.limits[l], own.limits[l], over.limits[l]))
              && st.source == if st.enabled != own.enabled || st.limits != own.limits then R.CoachCap else own.source
  {
    R.BaseApplies(defs, CLIENT, inp, k);
    R.CapKeepsShape(R.AfterParent(defs, CLIENT, inp, k), coach[k]);
  }

  /** Roles above entitlements have every feature without a limit; roles outside have none. */
  lemma OtherRolesResolve(defs: map<string, FeatureDef>, role: string, inp: R.Input, coach: Option<R.Resolved>,
                          k: string)
    requires k in defs && role != "coach" && role != "client"
    ensures R.Computed(defs, role, inp, coach)[k]
            == R.FeatureState(role == "bypass", if role == "bypass" then R.Default else R.NotApplicable,
                              map l | l in defs[k].limits :: None)
  {
  }
}
