/** What a coach may give a client, and that what is given is what the client gets. */
module Grantable {
  import opened Common
  import opened Registry
  import opened Ordering
  import opened Patch
  import R = Resolution
  import P = Precedence

  /**
   The patch of one feature gives no more than the coach has; features the coach has no part in are not held
   against it.
   */
  predicate EntryGrantable(p: FeaturePatch, coach: R.FeatureState) {
    coach.source.NotApplicable? ||
    (&& (p.enabled.isSet && p.enabled.value == Some(true) ==> coach.enabled)
     && (forall l :: l in p.limits && p.limits[l].Some? && l in coach.limits && coach.limits[l].Some? ==>
           p.limits[l].value <= coach.limits[l].value))
  }

  /** The limit asked for is above the one the coach has. */
  predicate Exceeds(asked: Option<int>, coach: R.FeatureState, l: string) {
    asked.Some? && l in coach.limits && coach.limits[l].Some? && asked.value > coach.limits[l].value
  }

  predicate AllGrantable(patch: map<string, FeaturePatch>, coach: R.Resolved) {
    forall k :: k in patch && k in coach ==> EntryGrantable(patch[k], coach[k])
  }

  method CheckEntry(p: FeaturePatch, coach: R.FeatureState) returns (ok: bool)
    ensures ok <==> EntryGrantable(p, coach)
  {
    if coach.source.NotApplicable? {
      return true;
    }
    if p.enabled.isSet && p.enabled.value == Some(true) && !coach.enabled {
      return false;
    }
    var left := p.limits.Keys;
    while left != {}
      invariant left <= p.limits.Keys
      invariant forall l :: l in p.limits && l !in left && p.limits[l].Some? && l in coach.limits
                            && coach.limits[l].Some? ==>
                              p.limits[l].value <= coach.limits[l].value
      decreases left
    {
      var l :| l in left;
      var cv := if l in coach.limits then coach.limits[l] else None;
      if p.limits[l].Some? && cv.Some? && p.limits[l].value > cv.value {
        return false;
      }
      left := left - {l};
    }
    return true;
  }

  /** Key by key: no feature and no limit beyond the coach's own. */
  method CheckGrantable(patch: map<string, FeaturePatch>, coach: R.Resolved) returns (ok: bool)
    ensures ok <==> AllGrantable(patch, coach)
    ensures !ok <==> exists k :: k in patch && k in coach && !coach[k].source.NotApplicable?
                                 && ((patch[k].enabled == OptBool(true, Some(true)) && !coach[k].enabled)
                                     || exists l :: l in patch[k].limits && Exceeds(patch[k].limits[l], coach[k], l))
  {
    var keys := SortedKeys(patch.Keys);
    for i := 0 to |keys|
      invariant forall j :: 0 <= j < i && keys[j] in coach ==> EntryGrantable(patch[keys[j]], coach[keys[j]])
    {
      var key := keys[i];
      if key in coach {
        ok := CheckEntry(patch[key], coach[key]);
        if !ok {
          return;
        }
      }
    }
    forall k | k in patch && k in coach
      ensures EntryGrantable(patch[k], coach[k])
    {
      assert k in Elements(keys);
      var j :| 0 <= j < |keys| && keys[j] == k;
    }
    return true;
  }

  /**
   The limits a patch sets come out as set, a switch it sets to off is off, one it sets to on is on with its
   parent.
   */
  predicate ComesOut(p: FeaturePatch, parentIsOn: bool, got: R.FeatureState) {
    && (forall l :: l in p.limits && p.limits[l].Some? ==> l in got.limits && got.limits[l] == p.limits[l])
    && (p.enabled == OptBool(true, Some(true)) ==> (got.enabled <==> parentIsOn))
    && (p.enabled == OptBool(true, Some(false)) ==> !got.enabled)
  }

  /** Before the cap. */
  lemma GrantedIsOwn(defs: map<string, FeatureDef>, f: Features, patch: map<string, FeaturePatch>, inp: R.Input,
                     k: string)
    requires WellFormed(defs) && ValidPatch(defs, patch, CLIENT) && k in patch
    requires inp.grant == Some(Applied(defs, f, patch, CLIENT).next)
    ensures k in defs && ComesOut(patch[k], P.ParentIsOn(defs, CLIENT, inp, k), R.Computed(defs, CLIENT, inp, None)[k])
  {
    PatchIsStored(defs, f, patch, CLIENT);
    P.ResolvedByPrecedence(defs, CLIENT, inp, k);
    forall l | l in patch[k].limits && patch[k].limits[l].Some?
      ensures P.OwnLimit(CLIENT, inp, k, l) == patch[k].limits[l] && l in defs[k].limits
    {
      assert P.LimitAt(CLIENT, inp, 0, k, l) == patch[k].limits[l];
    }
    assert P.SwitchAt(CLIENT, inp, 0, k) == SwitchOf(inp.grant.value, k);
  }

  /** The cap takes nothing of a patch that passes the check. */
  lemma PassesTheCap(p: FeaturePatch, parentIsOn: bool, own: R.FeatureState, over: R.FeatureState, st: R.FeatureState)
    requires EntryGrantable(p, over) && ComesOut(p, parentIsOn, own) && own.limits.Keys == over.limits.Keys
    requires over.source.NotApplicable? ==> st == own
    requires !over.source.NotApplicable? ==>
               && (st.enabled <==> own.enabled && over.enabled) && st.limits.Keys == own.limits.Keys
               && forall l :: l in own.limits ==> P.IsSmaller(st.limits[l], own.limits[l], over.limits[l])
    ensures ComesOut(p, parentIsOn, st)
  {
  }

  /**
   What a coach grants is what the client gets. When the check passes against the resolution the client is
   capped by, a limit the patch sets comes out as set, a feature it turns off is off, and one it turns on is
   on, at the top level always and as a child exactly when the parent's own switch is on.
   */
  lemma GrantedIsServed(defs: map<string, FeatureDef>, f: Features, patch: map<string, FeaturePatch>, inp: R.Input,
                        coach: R.Resolved, k: string)
    requires WellFormed(defs) && R.WellShaped(defs, coach) && ValidPatch(defs, patch, CLIENT) && k in patch
    requires inp.grant == Some(Applied(defs, f, patch, CLIENT).next) && AllGrantable(patch, coach)
    ensures k in defs
    ensures var got := R.Computed(defs, CLIENT, inp, Some(coach))[k];
            && ComesOut(patch[k], P.ParentIsOn(defs, CLIENT, inp, k), got)
            && (patch[k].enabled == OptBool(true, Some(true)) && defs[k].parent.None? ==> got.enabled)
  {
    var own, st := R.Computed(defs, CLIENT, inp, None)[k], R.Computed(defs, CLIENT, inp, Some(coach))[k];
    GrantedIsOwn(defs, f, patch, inp, k);
    P.ResolvedByPrecedence(defs, CLIENT, inp, k);
    P.CappedByPrecedence(defs, inp, coach, k);
    assert EntryGrantable(patch[k], coach[k]);
    PassesTheCap(patch[k], P.ParentIsOn(defs, CLIENT, inp, k), own, coach[k], st);
  }
}
