/**
 Layered feature resolution: role default, plan default and grant laid over the registry default, then the
 parent switch, then the coach cap. Limit maps live on the heap, as in the service, where a coach's
 resolution is cached and shared with every client resolved against it.
 */
module Resolution {
  import opened Common
  import opened Registry
  import opened Patch

  datatype Source = Default | Plan | Override | CoachCap | NotApplicable | Parent

  /** A limit of None is unlimited. */
  datatype FeatureState = FeatureState(enabled: bool, source: Source, limits: map<string, Option<int>>)

  /** defaults is keyed by plan id; planID is empty without a plan. */
  datatype Input = Input(planID: string, defaults: map<string, Features>, grant: Option<Features>)

  datatype Layer = Layer(features: Features, source: Source)

  // ---- what a resolution is, field by field ----

  function RoleDefault(role: string): string {
    if role == CLIENT then "_client" else "_coach"
  }

  /** The layers over the registry default, lowest first. */
  function Layers(role: string, inp: Input): seq<Layer> {
    (if RoleDefault(role) in inp.defaults then [Layer(inp.defaults[RoleDefault(role)], Plan)] else [])
    + (if inp.planID in inp.defaults && inp.planID != "" then [Layer(inp.defaults[inp.planID], Plan)] else [])
    + (if inp.grant.Some? then [Layer(inp.grant.value, Override)] else [])
  }

  function GrantAt(l: Layer, key: string): FeatureGrant {
    Entry(l.features, key).GetOr(NO_GRANT)
  }

  /** The last layer that says whether the feature is on decides. */
  function LastEnabled(layers: seq<Layer>, key: string, default: bool): bool {
    if layers == [] then default
    else
      var g := GrantAt(layers[|layers| - 1], key);
      if g.enabled.Some? then g.enabled.value else LastEnabled(layers[..|layers| - 1], key, default)
  }

  /** The last layer that gives the limit decides. */
  function LastLimit(layers: seq<Layer>, key: string, limit: string): Option<int> {
    if layers == [] then None
    else
      var given := GrantAt(layers[|layers| - 1], key).limits.GetOr(map[]);
      if limit in given then Some(given[limit]) else LastLimit(layers[..|layers| - 1], key, limit)
  }

  predicate Touches(def: FeatureDef, g: FeatureGrant) {
    g.enabled.Some? || exists l :: l in g.limits.GetOr(map[]) && l in def.limits
  }

  function LastSource(layers: seq<Layer>, def: FeatureDef, key: string): Source {
    if layers == [] then Default
    else if Touches(def, GrantAt(layers[|layers| - 1], key)) then layers[|layers| - 1].source
    else LastSource(layers[..|layers| - 1], def, key)
  }

  function Layered(def: FeatureDef, layers: seq<Layer>, key: string): FeatureState {
    FeatureState(LastEnabled(layers, key, def.defaultEnabled), LastSource(layers, def, key),
                 map l | l in def.limits :: LastLimit(layers, key, l))
  }

  function Blank(def: FeatureDef, enabled: bool, source: Source): FeatureState {
    FeatureState(enabled, source, map l | l in def.limits :: None)
  }

  function Base(defs: map<string, FeatureDef>, role: string, inp: Input, key: string): FeatureState
    requires key in defs
  {
    if role in defs[key].appliesTo then Layered(defs[key], Layers(role, inp), key)
    else Blank(defs[key], false, NotApplicable)
  }

  /** A child is on only while its parent is. */
  function Switched(st: FeatureState, parent: Option<FeatureState>): FeatureState {
    if !st.source.NotApplicable? && parent.Some? && !parent.value.source.NotApplicable? && st.enabled
       && !parent.value.enabled
    then st.(enabled := false, source := Parent) else st
  }

  function AfterParent(defs: map<string, FeatureDef>, role: string, inp: Input, key: string): FeatureState
    requires key in defs
  {
    var p := defs[key].parent;
    Switched(Base(defs, role, inp, key), if p.Some? && p.value in defs then Some(Base(defs, role, inp, p.value))
             else None)
  }

  /** The smaller of two limits; None is unlimited. */
  function Tighter(a: Option<int>, b: Option<int>): Option<int> {
    if b.None? then a else if a.None? || a.value > b.value then b else a
  }

  function CappedLimits(limits: map<string, Option<int>>, coach: map<string, Option<int>>): map<string, Option<int>> {
    map l | l in limits.Keys + coach.Keys && ((l in coach && coach[l].Some?) || l in limits) ::
      Tighter(if l in limits then limits[l] else None, if l in coach then coach[l] else None)
  }

  function Capped(st: FeatureState, coach: FeatureState): FeatureState {
    if coach.source.NotApplicable? then st
    else
      var limits := CappedLimits(st.limits, coach.limits);
      FeatureState(st.enabled && coach.enabled,
                   if (st.enabled && !coach.enabled) || limits != st.limits then CoachCap else st.source, limits)
  }

  type Resolved = map<string, FeatureState>

  /** coach is the coach's resolution, for a client that has one. */
  function AfterCap(defs: map<string, FeatureDef>, role: string, inp: Input, coach: Option<Resolved>,
                    key: string): FeatureState
    requires key in defs
  {
    var st := AfterParent(defs, role, inp, key);
    if role == CLIENT && coach.Some? then CappedBy(st, coach.value, key) else st
  }

  function CappedBy(st: FeatureState, coach: Resolved, key: string): FeatureState {
    if !st.source.NotApplicable? && key in coach then Capped(st, coach[key]) else st
  }

  /** The resolution of one role, told without any order of the features. */
  function ResolvedAs(defs: map<string, FeatureDef>, role: string, inp: Input, coach: Option<Resolved>): Resolved {
    map k | k in defs :: AfterCap(defs, role, inp, coach, k)
  }

  // ---- the loops ----

  class LimitMap {
    var m: map<string, Option<int>>

    constructor (limits: set<string>)
      ensures m == map l | l in limits :: None
    {
      m := map l | l in limits :: None;
    }
  }

  datatype StateRef = StateRef(enabled: bool, source: Source, limits: LimitMap)

  function View(r: StateRef): FeatureState
    reads r.limits
  {
    FeatureState(r.enabled, r.source, r.limits.m)
  }

  type ResolvedRef = map<string, StateRef>

  function Maps(rs: ResolvedRef): set<LimitMap> {
    set k | k in rs :: rs[k].limits
  }

  function ViewAll(rs: ResolvedRef): Resolved
    reads Maps(rs)
  {
    map k | k in rs :: View(rs[k])
  }

  function ViewCoach(coach: Option<ResolvedRef>): Option<Resolved>
    reads if coach.Some? then Maps(coach.value) else {}
  {
    if coach.Some? then Some(ViewAll(coach.value)) else None
  }

  /** One layer over a state. */
  function Overlaid(def: FeatureDef, st: FeatureState, g: FeatureGrant, source: Source): FeatureState {
    var given := g.limits.GetOr(map[]);
    FeatureState(if g.enabled.Some? then g.enabled.value else st.enabled, if Touches(def, g) then source else st.source,
                 map l | l in st.limits.Keys + (given.Keys * def.limits) ::
                   if l in given && l in def.limits then Some(given[l]) else st.limits[l])
  }

  lemma LayerOnTop(def: FeatureDef, layers: seq<Layer>, top: Layer, key: string)
    ensures Layered(def, layers + [top], key) == Overlaid(def, Layered(def, layers, key), GrantAt(top, key), top.source)
  {
    assert (layers + [top])[..|layers|] == layers;
  }

  method ApplyLayer(st: StateRef, def: FeatureDef, g: FeatureGrant, source: Source) returns (r: StateRef)
    modifies st.limits
    ensures r.limits == st.limits && View(r) == Overlaid(def, old(View(st)), g, source)
  {
    var changed := false;
    r := st;
    if g.enabled.Some? {
      r := r.(enabled := g.enabled.value);
      changed := true;
    }
    var given := g.limits.GetOr(map[]);
    var left := given.Keys;
    while left != {}
      invariant left <= given.Keys && r.limits == st.limits
      invariant changed <==> g.enabled.Some? || exists l :: l in given && l !in left && l in def.limits
      invariant st.limits.m == map l | l in old(st.limits.m).Keys + ((given.Keys - left) * def.limits) ::
                                 if l in given && l !in left && l in def.limits then Some(given[l])
                                 else old(st.limits.m)[l]
      decreases left
    {
      var l :| l in left;
      if l in def.limits {
        st.limits.m := st.limits.m[l := Some(given[l])];
        changed := true;
      }
      left := left - {l};
    }
    if changed {
      r := r.(source := source);
    }
  }

  /** Lowers st to the coach's state, reading the coach's limits and writing only st's own. */
  method CapByCoach(st: StateRef, coach: StateRef) returns (r: StateRef)
    requires st.limits != coach.limits
    modifies st.limits
    ensures r.limits == st.limits && View(r) == Capped(old(View(st)), View(coach))
  {
    r := st;
    if coach.source.NotApplicable? {
      return;
    }
    var capped := false;
    if r.enabled && !coach.enabled {
      r := r.(enabled := false);
      capped := true;
    }
    var left := coach.limits.m.Keys;
    ghost var disabled := capped;
    while left != {}
      invariant left <= coach.limits.m.Keys && r.limits == st.limits && r.source == st.source
      invariant coach.limits.m == old(coach.limits.m)
      invariant st.limits.m == CappedLimits(old(st.limits.m), coach.limits.m - left)
      invariant capped <==> disabled || st.limits.m != old(st.limits.m)
      decreases left
    {
      var l :| l in left;
      CappedOneMore(old(st.limits.m), coach.limits.m, left, l);
      var cv := coach.limits.m[l];
      if cv.Some? {
        var cur := if l in st.limits.m then st.limits.m[l] else None;
        if cur.None? || cur.value > cv.value {
          st.limits.m := st.limits.m[l := cv];
          capped := true;
        }
      }
      left := left - {l};
    }
    assert coach.limits.m - left == coach.limits.m;
    if capped {
      r := r.(source := CoachCap);
    }
  }

  lemma CappedOneMore(limits: map<string, Option<int>>, coach: map<string, Option<int>>, left: set<string>, l: string)
    requires l in left && left <= coach.Keys
    ensures var was := CappedLimits(limits, coach - left);
            CappedLimits(limits, coach - (left - {l}))
            == if coach[l].Some? && (l !in was || was[l].None? || was[l].value > coach[l].value) then was[l := coach[l]]
              else was
    ensures CappedLimits(limits, coach - left) == limits ==> forall k :: k in limits && k !in left && k in coach ==>
              Tighter(limits[k], coach[k]) == limits[k]
  {
  }

  /** Every feature has a limit map of its own. */
  predicate Unshared(rs: ResolvedRef) {
    forall j, k :: j in rs && k in rs && j != k ==> rs[j].limits != rs[k].limits
  }

  /** The layers over one feature, in a new limit map. */
  method LayerFeature(defs: map<string, FeatureDef>, role: string, inp: Input, key: string) returns (st: StateRef)
    requires key in defs
    ensures fresh(st.limits) && View(st) == Base(defs, role, inp, key)
  {
    var def := defs[key];
    var limits := new LimitMap(def.limits);
    if role !in def.appliesTo {
      return StateRef(false, NotApplicable, limits);
    }
    st := StateRef(def.defaultEnabled, Default, limits);
    ghost var layers: seq<Layer> := [];
    assert View(st) == Layered(def, layers, key);
    if RoleDefault(role) in inp.defaults {
      var l := Layer(inp.defaults[RoleDefault(role)], Plan);
      LayerOnTop(def, layers, l, key);
      st := ApplyLayer(st, def, GrantAt(l, key), Plan);
      layers := layers + [l];
    }
    if inp.planID in inp.defaults && inp.planID != "" {
      var l := Layer(inp.defaults[inp.planID], Plan);
      LayerOnTop(def, layers, l, key);
      st := ApplyLayer(st, def, GrantAt(l, key), Plan);
      layers := layers + [l];
    }
    if inp.grant.Some? {
      var l := Layer(inp.grant.value, Override);
      LayerOnTop(def, layers, l, key);
      st := ApplyLayer(st, def, GrantAt(l, key), Override);
      layers := layers + [l];
    }
    assert layers == Layers(role, inp);
  }

  method LayerAll(defs: map<string, FeatureDef>, role: string, inp: Input) returns (out: ResolvedRef)
    ensures out.Keys == defs.Keys && fresh(Maps(out)) && Unshared(out)
    ensures forall k :: k in out ==> View(out[k]) == Base(defs, role, inp, k)
  {
    out := map[];
    var left := defs.Keys;
    while left != {}
      invariant left <= defs.Keys && out.Keys == defs.Keys - left
      invariant fresh(Maps(out)) && Unshared(out)
      invariant forall k :: k in out ==> View(out[k]) == Base(defs, role, inp, k)
      decreases left
    {
      var key :| key in left;
      ghost var before := out;
      var st := LayerFeature(defs, role, inp, key);
      out := out[key := st];
      assert Maps(out) <= Maps(before) + {st.limits};
      left := left - {key};
    }
  }

  /** The parent switch, in whatever order the features come; no limit map is written. */
  method SwitchAll(defs: map<string, FeatureDef>, role: string, inp: Input, base: ResolvedRef)
    returns (out: ResolvedRef)
    requires WellFormed(defs) && base.Keys == defs.Keys
    requires forall k :: k in base ==> View(base[k]) == Base(defs, role, inp, k)
    ensures out.Keys == defs.Keys && forall k :: k in out ==> out[k].limits == base[k].limits
    ensures forall k :: k in out ==> View(out[k]) == AfterParent(defs, role, inp, k)
  {
    out := base;
    var left := defs.Keys;
    while left != {}
      invariant left <= defs.Keys && out.Keys == defs.Keys
      invariant forall k :: k in out ==> out[k].limits == base[k].limits
      invariant forall k :: k in out ==> View(out[k]) == if k in left then Base(defs, role, inp, k)
                                         else AfterParent(defs, role, inp, k)
      decreases left
    {
      var key :| key in left;
      var st, p := out[key], defs[key].parent;
      if p.Some? && !st.source.NotApplicable? {
        assert View(out[p.value]) == Base(defs, role, inp, p.value);
        var ps := out[p.value];
        if !ps.source.NotApplicable? && st.enabled && !ps.enabled {
          out := out[key := st.(enabled := false, source := Parent)];
        }
      }
      left := left - {key};
    }
  }

  /** owner names, for each limit map, the one feature that has it. */
  predicate Owned(rs: ResolvedRef, owner: map<LimitMap, string>) {
    forall k :: k in rs ==> rs[k].limits in owner && owner[rs[k].limits] == k
  }

  /** Caps one feature; the others, and the coach's, are as they were. */
  method CapFeature(coach: ResolvedRef, states: ResolvedRef, key: string, ghost goal: FeatureState,
                    ghost owner: map<LimitMap, string>)
    returns (out: ResolvedRef)
    requires key in states && Owned(states, owner)
    requires key in coach ==> coach[key].limits !in owner
    requires goal == if !states[key].source.NotApplicable? && key in coach
             then Capped(View(states[key]), View(coach[key])) else View(states[key])
    modifies states[key].limits
    ensures out.Keys == states.Keys && Owned(out, owner)
    ensures FeatureState(out[key].enabled, out[key].source, out[key].limits.m) == goal
    ensures forall k :: k in out && k != key ==> out[k] == states[k] && out[k].limits.m == old(states[k].limits.m)
  {
    out := states;
    var st := out[key];
    if !st.source.NotApplicable? && key in coach {
      st := CapByCoach(st, coach[key]);
      out := out[key := st];
    }
  }

  /** goal holds what the cap makes of each feature. */
  predicate GoalAt(base: Resolved, caps: Resolved, goal: Resolved, k: string) {
    k in base && k in goal && goal[k] == CappedBy(base[k], caps, k)
  }

  /** Which features have been capped: those outside left have what goal says, those in left what base says. */
  ghost predicate CappedOutside(rs: ResolvedRef, left: set<string>, base: Resolved, goal: Resolved, k: string)
    requires k in rs && k in base && k in goal
    reads rs[k].limits
  {
    View(rs[k]) == if k in left then base[k] else goal[k]
  }

  /** The coach's states, still as they were read. */
  ghost predicate StillReads(coach: ResolvedRef, caps: Resolved)
    reads Maps(coach)
  {
    caps.Keys == coach.Keys && forall k :: k in coach ==> View(coach[k]) == caps[k]
  }

  /** One round of the cap. */
  method CapNext(coach: ResolvedRef, states: ResolvedRef, key: string, ghost left: set<string>, ghost caps: Resolved,
                 ghost base: Resolved, ghost goal: Resolved,
                 ghost owner: map<LimitMap, string>)
    returns (out: ResolvedRef)
    requires Owned(states, owner) && Maps(coach) !! owner.Keys
    requires StillReads(coach, caps) && base.Keys == goal.Keys == states.Keys && key in left && left <= states.Keys
             && GoalAt(base, caps, goal, key)
    requires forall k :: k in states ==> CappedOutside(states, left, base, goal, k)
    modifies states[key].limits
    ensures out.Keys == states.Keys && Owned(out, owner) && StillReads(coach, caps)
    ensures forall k :: k in out ==> CappedOutside(out, left - {key}, base, goal, k)
  {
    assert CappedOutside(states, left, base, goal, key);
    assert key in coach ==> coach[key].limits in Maps(coach);
    out := CapFeature(coach, states, key, goal[key], owner);
    forall k | k in out
      ensures CappedOutside(out, left - {key}, base, goal, k)
    {
      assert old(CappedOutside(states, left, base, goal, k));
    }
  }

  /**
   The coach cap, in whatever order the features come; the coach's limit maps are only read. caps and base
   are the coach's states and the uncapped states before the loop.
   */
  method CapAll(coach: ResolvedRef, switched: ResolvedRef, ghost caps: Resolved, ghost base: Resolved,
                ghost goal: Resolved, ghost owner: map<LimitMap, string>)
    returns (out: ResolvedRef)
    requires Owned(switched, owner) && Maps(coach) !! owner.Keys
    requires StillReads(coach, caps) && base.Keys == goal.Keys == switched.Keys
    requires forall k :: k in switched ==> View(switched[k]) == base[k]
    requires forall k {:trigger GoalAt(base, caps, goal, k)} :: k in switched ==> GoalAt(base, caps, goal, k)
    modifies owner.Keys
    ensures out.Keys == switched.Keys && Owned(out, owner)
    ensures forall k :: k in out ==> View(out[k]) == goal[k]
  {
    out := switched;
    var left := switched.Keys;
    while left != {}
      invariant left <= switched.Keys && out.Keys == switched.Keys && Owned(out, owner) && StillReads(coach, caps)
      invariant forall k :: k in out ==> CappedOutside(out, left, base, goal, k)
      decreases left
    {
      var key :| key in left;
      assert GoalAt(base, caps, goal, key) && out[key].limits in owner;
      out := CapNext(coach, out, key, left, caps, base, goal, owner);
      left := left - {key};
    }
    assert forall k :: k in out ==> CappedOutside(out, {}, base, goal, k);
  }

  /**
   One result whatever order the maps are walked in, and nothing but new limit maps written: the coach's
   shared resolution, and everything else that existed before, is as it was.
   */
  method ComputeLayered(defs: map<string, FeatureDef>, role: string, inp: Input, coach: Option<ResolvedRef>)
    returns (out: ResolvedRef)
    requires WellFormed(defs)
    ensures fresh(Maps(out)) && Unshared(out)
    ensures out.Keys == defs.Keys && forall k :: k in out ==>
                                       View(out[k]) == AfterCap(defs, role, inp, old(ViewCoach(coach)), k)
  {
    out := ComputeUncapped(defs, role, inp);
    if role == CLIENT && coach.Some? {
      ghost var owner := map m: LimitMap | m in Maps(out) :: OwnerOf(out, m);
      ghost var caps := ViewAll(coach.value);
      out := CapClient(defs, inp, coach.value, out, owner, caps);
    }
  }

  ghost function OwnerOf(rs: ResolvedRef, m: LimitMap): string
    requires m in Maps(rs)
  {
    var k :| k in rs && rs[k].limits == m;
    k
  }

  method CapClient(defs: map<string, FeatureDef>, inp: Input, coach: ResolvedRef, uncapped: ResolvedRef,
                   ghost owner: map<LimitMap, string>, ghost caps: Resolved)
    returns (out: ResolvedRef)
    requires uncapped.Keys == defs.Keys && Owned(uncapped, owner)
    requires caps == ViewAll(coach) && Maps(coach) !! owner.Keys
    requires forall k :: k in uncapped ==> View(uncapped[k]) == AfterParent(defs, CLIENT, inp, k)
    modifies owner.Keys
    ensures out.Keys == defs.Keys && Owned(out, owner)
    ensures forall k :: k in out ==> View(out[k]) == AfterCap(defs, CLIENT, inp, Some(caps), k)
  {
    ghost var base := ViewAll(uncapped);
    ghost var goal := map k | k in base :: CappedBy(base[k], caps, k);
    out := CapAll(coach, uncapped, caps, base, goal, owner);
    forall k | k in out
      ensures View(out[k]) == AfterCap(defs, CLIENT, inp, Some(caps), k)
    {
      assert base[k] == AfterParent(defs, CLIENT, inp, k);
    }
  }

  method ComputeUncapped(defs: map<string, FeatureDef>, role: string, inp: Input) returns (out: ResolvedRef)
    requires WellFormed(defs)
    ensures out.Keys == defs.Keys && fresh(Maps(out)) && Unshared(out)
    ensures forall k :: k in out ==> View(out[k]) == AfterParent(defs, role, inp, k)
  {
    var base := LayerAll(defs, role, inp);
    out := SwitchAll(defs, role, inp, base);
    assert Maps(out) == Maps(base);
  }

  // ---- what a resolution guarantees ----

  /** The resolution of an account: bypass roles have everything, roles without entitlements nothing. */
  function Computed(defs: map<string, FeatureDef>, role: string, inp: Input, coach: Option<Resolved>): Resolved {
    if role == "bypass" then map k | k in defs :: Blank(defs[k], true, Default)
    else if role == COACH || role == CLIENT then ResolvedAs(defs, role, inp, coach)
    else map k | k in defs :: Blank(defs[k], false, NotApplicable)
  }

  /** Every feature is there, with exactly its registered limits. */
  predicate WellShaped(defs: map<string, FeatureDef>, rs: Resolved) {
    rs.Keys == defs.Keys && forall k :: k in rs ==> rs[k].limits.Keys == defs[k].limits
  }

  predicate ChildrenFollowParents(defs: map<string, FeatureDef>, rs: Resolved) {
    forall k :: k in defs && defs[k].parent.Some? && k in rs && defs[k].parent.value in rs ==>
      && (rs[k].enabled ==> rs[defs[k].parent.value].enabled)
      && (rs[k].source.NotApplicable? <==> rs[defs[k].parent.value].source.NotApplicable?)
  }

  lemma LayersAreNeverNotApplicable(role: string, inp: Input, def: FeatureDef, key: string)
    ensures !LastSource(Layers(role, inp), def, key).NotApplicable?
  {
    var layers := Layers(role, inp);
    assert forall l :: l in layers ==> l.source.Plan? || l.source.Override?;
    LastSourceIsALayer(layers, def, key);
  }

  lemma {:induction false} LastSourceIsALayer(layers: seq<Layer>, def: FeatureDef, key: string)
    ensures LastSource(layers, def, key).Default? || exists l :: l in layers && l.source == LastSource(layers, def, key)
    decreases |layers|
  {
    if layers != [] {
      assert layers[|layers| - 1] in layers;
      LastSourceIsALayer(layers[..|layers| - 1], def, key);
    }
  }

  lemma BaseApplies(defs: map<string, FeatureDef>, role: string, inp: Input, key: string)
    requires key in defs
    ensures Base(defs, role, inp, key).source.NotApplicable? <==> role !in defs[key].appliesTo
    ensures AfterParent(defs, role, inp, key).source.NotApplicable? <==> role !in defs[key].appliesTo
    ensures role !in defs[key].appliesTo ==> !AfterParent(defs, role, inp, key).enabled
  {
    LayersAreNeverNotApplicable(role, inp, defs[key], key);
  }

  /** Before any cap, children follow their parents. */
  lemma ParentRuleHolds(defs: map<string, FeatureDef>, role: string, inp: Input, key: string)
    requires WellFormed(defs) && key in defs && defs[key].parent.Some?
    ensures var p := defs[key].parent.value;
            && (AfterParent(defs, role, inp, key).enabled ==> AfterParent(defs, role, inp, p).enabled)
            && (AfterParent(defs, role, inp, key).source.NotApplicable? <==>
                  AfterParent(defs, role, inp, p).source.NotApplicable?)
  {
    BaseApplies(defs, role, inp, key);
    BaseApplies(defs, role, inp, defs[key].parent.value);
  }

  lemma CapKeepsShape(st: FeatureState, coach: FeatureState)
    requires coach.limits.Keys == st.limits.Keys
    ensures Capped(st, coach).limits.Keys == st.limits.Keys
    ensures st.source.NotApplicable? || !Capped(st, coach).source.NotApplicable?
  {
  }

  /** Every account resolves to well-shaped states in which children follow their parents. */
  lemma AccountsResolveWell(defs: map<string, FeatureDef>, role: string, inp: Input)
    requires WellFormed(defs)
    ensures WellShaped(defs, Computed(defs, role, inp, None))
            && ChildrenFollowParents(defs, Computed(defs, role, inp, None))
  {
    forall k | k in defs && defs[k].parent.Some? && (role == COACH || role == CLIENT)
      ensures AfterParent(defs, role, inp, k).enabled ==> AfterParent(defs, role, inp, defs[k].parent.value).enabled
      ensures AfterParent(defs, role, inp, k).source.NotApplicable? <==>
                AfterParent(defs, role, inp, defs[k].parent.value).source.NotApplicable?
    {
      ParentRuleHolds(defs, role, inp, k);
    }
  }

  /** a allows no more than b; None is unlimited. */
  predicate AtMost(a: Option<int>, b: Option<int>) {
    b.None? || (a.Some? && a.value <= b.value)
  }

  /**
   A client never has more than the coach it was capped by, keeps exactly the registered limits, and loses
   no more than the cap takes: it is on when both are, and each limit is the smaller of the two.
   */
  lemma ClientStaysUnderCoach(defs: map<string, FeatureDef>, inp: Input, coach: Resolved, k: string)
    requires WellFormed(defs) && WellShaped(defs, coach) && k in defs && CLIENT in defs[k].appliesTo
    ensures var own, got := AfterParent(defs, CLIENT, inp, k), Computed(defs, CLIENT, inp, Some(coach))[k];
            && got.limits.Keys == defs[k].limits
            && (coach[k].source.NotApplicable? ==> got == own)
            && (!coach[k].source.NotApplicable? ==>
                  && (got.enabled <==> own.enabled && coach[k].enabled)
                  && (forall l :: l in defs[k].limits ==>
                        && AtMost(got.limits[l], coach[k].limits[l]) && AtMost(got.limits[l], own.limits[l])
                        && (got.limits[l] == coach[k].limits[l] || got.limits[l] == own.limits[l])))
  {
    BaseApplies(defs, CLIENT, inp, k);
    CapKeepsShape(AfterParent(defs, CLIENT, inp, k), coach[k]);
  }

  /**
   Children still follow their parents after the cap, although the parent rule ran before it, because the
   coach's own resolution follows it.
   */
  lemma CapKeepsParentRule(defs: map<string, FeatureDef>, inp: Input, coach: Resolved)
    requires WellFormed(defs) && WellShaped(defs, coach) && ChildrenFollowParents(defs, coach)
    ensures WellShaped(defs, Computed(defs, CLIENT, inp, Some(coach)))
            && ChildrenFollowParents(defs, Computed(defs, CLIENT, inp, Some(coach)))
  {
    var rs := Computed(defs, CLIENT, inp, Some(coach));
    forall k | k in defs
      ensures rs[k].limits.Keys == defs[k].limits
      ensures rs[k].enabled <==> AfterParent(defs, CLIENT, inp, k).enabled
                                 && (coach[k].source.NotApplicable? || coach[k].enabled)
      ensures rs[k].source.NotApplicable? <==> CLIENT !in defs[k].appliesTo
    {
      BaseApplies(defs, CLIENT, inp, k);
      CapKeepsShape(AfterParent(defs, CLIENT, inp, k), coach[k]);
    }
    forall k | k in defs && defs[k].parent.Some?
      ensures rs[k].enabled ==> rs[defs[k].parent.value].enabled
    {
      ParentRuleHolds(defs, CLIENT, inp, k);
    }
  }

  /**
   An end-to-end client: capped by a coach resolved from its own layers. The registry in use is well formed
   (RegistryIsWellFormed).
   */
  lemma ClientOfCoach(defs: map<string, FeatureDef>, inp: Input, coachInput: Input, k: string)
    requires WellFormed(defs) && k in defs && CLIENT in defs[k].appliesTo && COACH in defs[k].appliesTo
    ensures var coach := Computed(defs, COACH, coachInput, None);
            var client := Computed(defs, CLIENT, inp, Some(coach));
            && (client[k].enabled ==> coach[k].enabled)
            && (defs[k].parent.Some? && client[k].enabled ==> client[defs[k].parent.value].enabled)
            && client[k].limits.Keys == coach[k].limits.Keys == defs[k].limits
            && forall l :: l in defs[k].limits ==> AtMost(client[k].limits[l], coach[k].limits[l])
  {
    var coach := Computed(defs, COACH, coachInput, None);
    AccountsResolveWell(defs, COACH, coachInput);
    ClientStaysUnderCoach(defs, inp, coach, k);
    CapKeepsParentRule(defs, inp, coach);
    BaseApplies(defs, COACH, coachInput, k);
  }

  // ---- each field comes from the last layer that defines it ----

  lemma {:induction false} EnabledFromLastDefiner(layers: seq<Layer>, key: string, default: bool, i: nat)
    requires i < |layers| && GrantAt(layers[i], key).enabled.Some?
    requires forall j :: i < j < |layers| ==> GrantAt(layers[j], key).enabled.None?
    ensures LastEnabled(layers, key, default) == GrantAt(layers[i], key).enabled.value
    decreases |layers|
  {
    if i < |layers| - 1 {
      EnabledFromLastDefiner(layers[..|layers| - 1], key, default, i);
    }
  }

  lemma {:induction false} LimitFromLastDefiner(layers: seq<Layer>, key: string, limit: string, i: nat)
    requires i < |layers| && limit in GrantAt(layers[i], key).limits.GetOr(map[])
    requires forall j :: i < j < |layers| ==> limit !in GrantAt(layers[j], key).limits.GetOr(map[])
    ensures LastLimit(layers, key, limit) == Some(GrantAt(layers[i], key).limits.value[limit])
    decreases |layers|
  {
    if i < |layers| - 1 {
      LimitFromLastDefiner(layers[..|layers| - 1], key, limit, i);
    }
  }

  lemma {:induction false} UntouchedIsDefault(layers: seq<Layer>, def: FeatureDef, key: string)
    requires forall l :: l in layers ==> !Touches(def, GrantAt(l, key))
    ensures Layered(def, layers, key) == Blank(def, def.defaultEnabled, Default)
    decreases |layers|
  {
    if layers != [] {
      var last := layers[|layers| - 1];
      assert last in layers;
      UntouchedIsDefault(layers[..|layers| - 1], def, key);
      forall l | l in def.limits
        ensures LastLimit(layers, key, l) == None
      {
        assert Layered(def, layers[..|layers| - 1], key).limits[l] == None;
      }
    }
  }
}
