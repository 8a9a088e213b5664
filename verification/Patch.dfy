/**
 Patching feature overrides: the new overrides, and a before/after diff of the entries that changed.
 defs is the feature registry; what is proved here holds for every registry.
 */
module Patch {
  import opened Common
  import opened Registry
  import opened Ordering

  /** limits distinguishes an absent map from an empty one, as the stored document does. */
  datatype FeatureGrant = FeatureGrant(enabled: Option<bool>, limits: Option<map<string, int>>)

  type Features = map<string, FeatureGrant>

  /** A field of a request: absent, null (None) or a value. */
  datatype OptBool = OptBool(isSet: bool, value: Option<bool>)

  /** A null limit clears that override. */
  datatype FeaturePatch = FeaturePatch(enabled: OptBool, limits: map<string, Option<int>>)

  /** The overrides after the patch, and snapshots (None: no entry) of the entries it changed. */
  datatype Patched = Patched(next: Features, before: map<string, Option<FeatureGrant>>,
                             after: map<string, Option<FeatureGrant>>) | Rejected

  const NO_GRANT := FeatureGrant(None, None)

  // ---- what a patch means ----

  function Trimmed(limits: map<string, int>): Option<map<string, int>> {
    if limits == map[] then None else Some(limits)
  }

  /** A copy of an entry; an empty limit map is dropped. Also the snapshot a diff records. */
  function Cloned(g: FeatureGrant): FeatureGrant {
    g.(limits := Trimmed(g.limits.GetOr(map[])))
  }

  function ClonedAll(f: Features): Features {
    map k | k in f :: Cloned(f[k])
  }

  function Entry(f: Features, key: string): Option<FeatureGrant> {
    if key in f then Some(f[key]) else None
  }

  function PatchedLimits(limits: map<string, int>, patch: map<string, Option<int>>): map<string, int> {
    map l | l in limits.Keys + patch.Keys && (l in patch ==> patch[l].Some?) ::
      if l in patch then patch[l].value else limits[l]
  }

  function PatchedEntry(was: Option<FeatureGrant>, p: FeaturePatch): FeatureGrant {
    var g := was.GetOr(NO_GRANT);
    FeatureGrant(if p.enabled.isSet then p.enabled.value else g.enabled,
                 Trimmed(PatchedLimits(g.limits.GetOr(map[]), p.limits)))
  }

  predicate ValidFor(def: FeatureDef, p: FeaturePatch) {
    forall l :: l in p.limits ==> l in def.limits && (p.limits[l].Some? ==> p.limits[l].value >= 0)
  }

  /** role is empty for a payments plan, whose defaults may name any feature. */
  predicate ValidPatch(defs: map<string, FeatureDef>, patch: map<string, FeaturePatch>, role: string) {
    && patch != map[]
    && forall k :: k in patch ==> IsValidAt(defs, patch, role, k)
  }

  predicate IsValidAt(defs: map<string, FeatureDef>, patch: map<string, FeaturePatch>, role: string, k: string)
    requires k in patch
  {
    k in defs && (role != "" ==> role in defs[k].appliesTo) && ValidFor(defs[k], patch[k])
  }

  /** Every patched entry, NO_GRANT where nothing is left of it. */
  function Entries(f: Features, patch: map<string, FeaturePatch>): Features {
    map k | k in patch :: PatchedEntry(Entry(f, k), patch[k])
  }

  /** f with the entries of cur written over it. */
  function Next(f: Features, cur: Features): Features {
    map k | k in f.Keys + cur.Keys && (k in cur ==> cur[k] != NO_GRANT) :: if k in cur then cur[k] else Cloned(f[k])
  }

  predicate Changes(f: Features, cur: Features, k: string) {
    k in cur && Entry(f, k).GetOr(NO_GRANT) != cur[k]
  }

  function Snapshot(g: FeatureGrant, present: bool): Option<FeatureGrant> {
    if present then Some(Cloned(g)) else None
  }

  function Before(f: Features, cur: Features): map<string, Option<FeatureGrant>> {
    map k | k in cur && Changes(f, cur, k) :: Snapshot(Entry(f, k).GetOr(NO_GRANT), k in f)
  }

  function After(f: Features, cur: Features): map<string, Option<FeatureGrant>> {
    map k | k in cur && Changes(f, cur, k) :: Snapshot(cur[k], cur[k] != NO_GRANT)
  }

  function Applied(defs: map<string, FeatureDef>, f: Features, patch: map<string, FeaturePatch>,
                   role: string): Patched {
    if ValidPatch(defs, patch, role)
    then
      var cur := Entries(f, patch);
      Patched(Next(f, cur), Before(f, cur), After(f, cur))
    else Rejected
  }

  // ---- the loops ----

  method CloneFeatures(f: Features) returns (out: Features)
    ensures out == ClonedAll(f)
  {
    out := map[];
    var left := f.Keys;
    while left != {}
      invariant left <= f.Keys && out.Keys == f.Keys - left
      invariant forall k :: k in out ==> out[k] == Cloned(f[k])
      decreases left
    {
      var k :| k in left;
      out := out[k := Cloned(f[k])];
      left := left - {k};
    }
  }

  /** The limits of one entry, patched key by key in whatever order the map yields; None when a key is refused. */
  method PatchLimits(def: FeatureDef, was: Option<map<string, int>>, patch: map<string, Option<int>>)
    returns (limits: Option<Option<map<string, int>>>)
    ensures limits.Some? <==> forall l :: l in patch ==> l in def.limits && (patch[l].Some? ==> patch[l].value >= 0)
    ensures limits.Some? ==> limits.value.GetOr(map[]) == PatchedLimits(was.GetOr(map[]), patch)
  {
    var cur := was;
    var left := patch.Keys;
    while left != {}
      invariant left <= patch.Keys
      invariant forall l :: l in patch && l !in left ==> l in def.limits && (patch[l].Some? ==> patch[l].value >= 0)
      invariant cur.GetOr(map[]) == PatchedLimits(was.GetOr(map[]), patch - left)
      decreases left
    {
      var l :| l in left;
      if l !in def.limits {
        return None;
      }
      if patch[l].None? {
        cur := if cur.Some? then Some(cur.value - {l}) else None;
      } else if patch[l].value < 0 {
        return None;
      } else {
        cur := Some(cur.GetOr(map[])[l := patch[l].value]);
      }
      OneMoreLimit(was.GetOr(map[]), patch, left, l);
      left := left - {l};
    }
    assert patch - left == patch;
    return Some(cur);
  }

  lemma OneMoreLimit(limits: map<string, int>, patch: map<string, Option<int>>, left: set<string>, l: string)
    requires l in left && left <= patch.Keys
    ensures var so, then' := PatchedLimits(limits, patch - left), PatchedLimits(limits, patch - (left - {l}));
            then' == if patch[l].Some? then so[l := patch[l].value] else so - {l}
  {
  }

  /** The entry of one feature after its patch; None when the patch is refused. */
  method PatchFeature(def: FeatureDef, was: Option<FeatureGrant>, p: FeaturePatch) returns (cur: Option<FeatureGrant>)
    ensures cur.Some? <==> ValidFor(def, p)
    ensures cur.Some? ==> cur.value == PatchedEntry(was, p)
  {
    var g := Cloned(was.GetOr(NO_GRANT));
    var limits := PatchLimits(def, g.limits, p.limits);
    if limits.None? {
      return None;
    }
    assert g.limits.GetOr(map[]) == was.GetOr(NO_GRANT).limits.GetOr(map[]);
    return Some(FeatureGrant(if p.enabled.isSet then p.enabled.value else g.enabled,
                             if limits.value.GetOr(map[]) == map[] then None else limits.value));
  }

  /** The checks on one key of a patch, and its entry after it. */
  method PatchKey(defs: map<string, FeatureDef>, current: Features, patch: map<string, FeaturePatch>, role: string,
                  key: string) returns (g: Option<FeatureGrant>)
    requires key in patch
    ensures g.Some? <==> IsValidAt(defs, patch, role, key)
    ensures g.Some? ==> g.value == PatchedEntry(Entry(current, key), patch[key])
  {
    if key !in defs || (role != "" && role !in defs[key].appliesTo) {
      return None;
    }
    g := PatchFeature(defs[key], Entry(current, key), patch[key]);
  }

  /**
   Refused: an empty patch, and one with an unknown feature, a feature of other roles, an unknown or a
   negative limit.
   */
  method ApplyPatch(defs: map<string, FeatureDef>, current: Features, patch: map<string, FeaturePatch>, role: string)
    returns (r: Patched)
    ensures r == Applied(defs, current, patch, role)
    ensures r.Rejected? <==>
              || patch == map[]
              || (exists k :: k in patch && (k !in defs || (role != "" && role !in defs[k].appliesTo)))
              || (exists k, l :: k in patch && k in defs && l in patch[k].limits
                                 && (l !in defs[k].limits || (patch[k].limits[l].Some?
                                                              && patch[k].limits[l].value < 0)))
  {
    if patch == map[] {
      return Rejected;
    }
    var next := CloneFeatures(current);
    var before: map<string, Option<FeatureGrant>>, after: map<string, Option<FeatureGrant>> := map[], map[];
    var keys := SortedKeys(patch.Keys);
    ghost var cur: Features := map[];
    NothingPatched(defs, current, patch, role);
    for i := 0 to |keys|
      invariant IsPart(defs, current, patch, role, cur) && cur.Keys == Elements(keys[..i])
      invariant next == Next(current, cur) && before == Before(current, cur) && after == After(current, cur)
    {
      var key := keys[i];
      KeyIsNew(keys, i);
      var g := PatchKey(defs, current, patch, role, key);
      if g.None? {
        return Rejected;
      }
      ghost var bigger := cur[key := g.value];
      assert bigger.Keys == cur.Keys + {key};
      PartGrows(defs, current, patch, role, cur, key, g.value);
      OneMoreEntry(current, cur, key, g.value);
      var was := Entry(current, key).GetOr(NO_GRANT);
      next := if g.value == NO_GRANT then next - {key} else next[key := g.value];
      if was != g.value && (key in current || g.value != NO_GRANT) {
        before := before[key := Snapshot(was, key in current)];
        after := after[key := Snapshot(g.value, g.value != NO_GRANT)];
      }
      cur := bigger;
    }
    assert keys[..|keys|] == keys;
    WholePart(defs, current, patch, role, cur);
    return Patched(next, before, after);
  }

  lemma NothingPatched(defs: map<string, FeatureDef>, f: Features, patch: map<string, FeaturePatch>, role: string)
    ensures IsPart(defs, f, patch, role, map[]) && Next(f, map[]) == ClonedAll(f) && Before(f, map[]) == map[]
            && After(f, map[]) == map[]
  {
  }

  /** cur holds the patched entries of some keys, and those keys pass the checks. */
  predicate IsPart(defs: map<string, FeatureDef>, f: Features, patch: map<string, FeaturePatch>, role: string,
                   cur: Features) {
    cur.Keys <= patch.Keys && forall k :: k in cur ==>
                                cur[k] == PatchedEntry(Entry(f, k), patch[k]) && IsValidAt(defs, patch, role, k)
  }

  lemma PartGrows(defs: map<string, FeatureDef>, f: Features, patch: map<string, FeaturePatch>, role: string,
                  cur: Features, key: string, g: FeatureGrant)
    requires IsPart(defs, f, patch, role, cur) && key in patch && IsValidAt(defs, patch, role, key)
             && g == PatchedEntry(Entry(f, key), patch[key])
    ensures IsPart(defs, f, patch, role, cur[key := g])
  {
  }

  lemma WholePart(defs: map<string, FeatureDef>, f: Features, patch: map<string, FeaturePatch>, role: string,
                  cur: Features)
    requires IsPart(defs, f, patch, role, cur) && cur.Keys == patch.Keys && patch != map[]
    ensures ValidPatch(defs, patch, role) && cur == Entries(f, patch)
  {
  }

  lemma KeyIsNew(keys: seq<string>, i: nat)
    requires i < |keys| && Ascending(keys)
    ensures Elements(keys[..i + 1]) == Elements(keys[..i]) + {keys[i]} && keys[i] !in Elements(keys[..i])
  {
    LessIsTotal(keys[i], keys[i]);
  }

  /** What writing one more entry does to the overrides and to the diff. */
  lemma OneMoreEntry(f: Features, cur: Features, key: string, g: FeatureGrant)
    requires key !in cur
    ensures Next(f, cur[key := g]) == if g == NO_GRANT then Next(f, cur) - {key} else Next(f, cur)[key := g]
    ensures var was := Entry(f, key).GetOr(NO_GRANT);
            if was != g && (key in f || g != NO_GRANT)
            then Before(f, cur[key := g]) == Before(f, cur)[key := Snapshot(was, key in f)]
                 && After(f, cur[key := g]) == After(f, cur)[key := Snapshot(g, g != NO_GRANT)]
            else Before(f, cur[key := g]) == Before(f, cur) && After(f, cur[key := g]) == After(f, cur)
  {
    assert cur[key := g] - {key} == cur;
    NextOneMore(f, cur[key := g], key);
    BeforeOneMore(f, cur[key := g], key);
    AfterOneMore(f, cur[key := g], key);
  }

  /** What the entry of key adds to the overrides written without it. */
  lemma NextOneMore(f: Features, cur: Features, key: string)
    requires key in cur
    ensures Next(f, cur) == if cur[key] == NO_GRANT then Next(f, cur - {key}) - {key}
            else Next(f, cur - {key})[key := cur[key]]
  {
  }

  /** And to the diff. */
  lemma BeforeOneMore(f: Features, cur: Features, key: string)
    requires key in cur
    ensures Before(f, cur) == if Changes(f, cur, key)
            then Before(f, cur - {key})[key := Snapshot(Entry(f, key).GetOr(NO_GRANT), key in f)]
                              else Before(f, cur - {key})
  {
    assert forall k :: k != key ==> (Changes(f, cur, k) <==> Changes(f, cur - {key}, k));
  }

  lemma AfterOneMore(f: Features, cur: Features, key: string)
    requires key in cur
    ensures After(f, cur) == if Changes(f, cur, key)
            then After(f, cur - {key})[key := Snapshot(cur[key], cur[key] != NO_GRANT)]
                             else After(f, cur - {key})
  {
    assert forall k :: k != key ==> (Changes(f, cur, k) <==> Changes(f, cur - {key}, k));
  }

  // ---- what the result is, field by field ----

  /** The stored switch and limits of a feature; None: not overridden. */
  function SwitchOf(f: Features, k: string): Option<bool> {
    if k in f then f[k].enabled else None
  }

  function LimitIn(f: Features, k: string, l: string): Option<int> {
    if k in f && f[k].limits.Some? && l in f[k].limits.value then Some(f[k].limits.value[l]) else None
  }

  /**
   What an admin or coach asked for is what is stored, and nothing else changes: a switch of the patch is
   stored with the patch's value (null: none), a limit with its value (null: gone), and every other switch
   and limit is the old one. Of the patched keys those stay that have something left; no empty limit map is stored.
   */
  lemma PatchIsStored(defs: map<string, FeatureDef>, f: Features, patch: map<string, FeaturePatch>, role: string)
    requires Applied(defs, f, patch, role).Patched?
    ensures var next := Applied(defs, f, patch, role).next;
            && (forall k :: SwitchOf(next, k) == if k in patch && patch[k].enabled.isSet then patch[k].enabled.value
                                                 else SwitchOf(f, k))
            && (forall k, l :: LimitIn(next, k, l) == if k in patch && l in patch[k].limits then patch[k].limits[l]
                                                      else LimitIn(f, k, l))
            && (forall k :: k in next && k in patch <==>
                              k in patch && (SwitchOf(next, k).Some? || exists l :: LimitIn(next, k, l).Some?))
            && (forall k :: k !in patch ==> (k in next <==> k in f))
            && (forall k :: k in next ==> next[k].limits != Some(map[]))
  {
    var next := Applied(defs, f, patch, role).next;
    forall k
      ensures SwitchOf(next, k) == if k in patch && patch[k].enabled.isSet then patch[k].enabled.value
              else SwitchOf(f, k)
      ensures k in next && k in patch <==>
                k in patch && (SwitchOf(next, k).Some? || exists l :: LimitIn(next, k, l).Some?)
      ensures k !in patch ==> (k in next <==> k in f)
      ensures k in next ==> next[k].limits != Some(map[])
    {
      EntryIsStored(f, patch, k);
    }
    forall k, l
      ensures LimitIn(next, k, l) == if k in patch && l in patch[k].limits then patch[k].limits[l] else LimitIn(f, k, l)
    {
      LimitIsStored(f, patch, k, l);
    }
  }

  lemma LimitIsStored(f: Features, patch: map<string, FeaturePatch>, k: string, l: string)
    ensures LimitIn(Next(f, Entries(f, patch)), k, l) == if k in patch && l in patch[k].limits then patch[k].limits[l]
                                                         else LimitIn(f, k, l)
  {
    if k in patch {
      var limits := PatchedLimits(Entry(f, k).GetOr(NO_GRANT).limits.GetOr(map[]), patch[k].limits);
      assert l in limits <==> if l in patch[k].limits then patch[k].limits[l].Some? else LimitIn(f, k, l).Some?;
    }
  }

  lemma EntryIsStored(f: Features, patch: map<string, FeaturePatch>, k: string)
    ensures var next := Next(f, Entries(f, patch));
            && SwitchOf(next, k) == (if k in patch && patch[k].enabled.isSet then patch[k].enabled.value
                                     else SwitchOf(f, k))
            && (k in next && k in patch <==>
                  k in patch && (SwitchOf(next, k).Some? || exists l :: LimitIn(next, k, l).Some?))
            && (k !in patch ==> (k in next <==> k in f)) && (k in next ==> next[k].limits != Some(map[]))
  {
    var next := Next(f, Entries(f, patch));
    if k in patch && k in next && SwitchOf(next, k).None? {
      var limits := next[k].limits.value;
      assert limits != map[];
      var l :| l in limits;
      assert LimitIn(next, k, l).Some?;
    }
  }

  // ---- what the result is good for ----

  /** No empty entry and no empty limit map. */
  predicate Normalized(f: Features) {
    forall k :: k in f ==> f[k] != NO_GRANT && f[k].limits != Some(map[])
  }

  /** Overrides with one side of a diff written over them. */
  function Written(f: Features, diff: map<string, Option<FeatureGrant>>): Features {
    map k | k in f.Keys + diff.Keys && (k in diff ==> diff[k].Some?) :: if k in diff then diff[k].value else f[k]
  }

  /** The diff leads from the old overrides to the new ones and back. */
  predicate LeadsThereAndBack(f: Features, r: Patched)
    requires r.Patched?
  {
    Written(f, r.after) == r.next && Written(r.next, r.before) == f
  }

  lemma EntriesAreTrimmed(f: Features, patch: map<string, FeaturePatch>)
    ensures forall k :: k in Entries(f, patch) ==> Entries(f, patch)[k].limits != Some(map[])
  {
  }

  /** A patch keeps normalized overrides normalized. */
  lemma PatchKeepsNormalized(defs: map<string, FeatureDef>, f: Features, patch: map<string, FeaturePatch>, role: string)
    requires Normalized(f) && ValidPatch(defs, patch, role)
    ensures Normalized(Applied(defs, f, patch, role).next)
  {
    var next := Applied(defs, f, patch, role).next;
    forall k | k in next
      ensures next[k] != NO_GRANT && next[k].limits != Some(map[])
    {
      EntryIsStored(f, patch, k);
    }
  }

  /**
   Written over the old overrides, after gives the new ones unless an untouched empty map or a kept empty
   entry is dropped.
   */
  lemma AfterLeadsThere(f: Features, cur: Features)
    requires forall k :: k in cur ==> cur[k].limits != Some(map[])
    ensures Written(f, After(f, cur)) == Next(f, cur)
            <==> forall k :: k in f ==> if k in cur then f[k] != NO_GRANT || cur[k] != NO_GRANT
                                        else f[k].limits != Some(map[])
  {
    forall k
      ensures k in cur && Changes(f, cur, k) ==>
                k in After(f, cur) && After(f, cur)[k] == if cur[k] != NO_GRANT then Some(cur[k]) else None
    {
    }
    var w, n := Written(f, After(f, cur)), Next(f, cur);
    forall k | k in f
      ensures (Entry(w, k) == Entry(n, k)) <==>
                if k in cur then f[k] != NO_GRANT || cur[k] != NO_GRANT else f[k].limits != Some(map[])
    {
    }
    forall k | k !in f
      ensures Entry(w, k) == Entry(n, k)
    {
    }
    SameEntries(w, n);
  }

  lemma SameEntries(f: Features, g: Features)
    ensures f == g <==> forall k :: Entry(f, k) == Entry(g, k)
  {
    if forall k :: Entry(f, k) == Entry(g, k) {
      forall k
        ensures k in f <==> k in g
        ensures k in f ==> f[k] == g[k]
      {
        assert Entry(f, k) == Entry(g, k);
      }
    }
  }

  /** A patch of one feature that only clears. */
  predicate OnlyClears(p: FeaturePatch) {
    (p.enabled.isSet ==> p.enabled.value.None?) && forall l :: l in p.limits ==> p.limits[l].None?
  }

  /** The old overrides hold no empty limit map, and no empty entry under a patch that only clears. */
  predicate Tame(f: Features, patch: map<string, FeaturePatch>) {
    forall k :: k in f ==> f[k].limits != Some(map[]) && !(f[k] == NO_GRANT && k in patch && OnlyClears(patch[k]))
  }

  lemma EmptyStaysEmpty(p: FeaturePatch)
    ensures PatchedEntry(Some(NO_GRANT), p) == NO_GRANT <==> OnlyClears(p)
  {
    var limits := PatchedLimits(map[], p.limits);
    if l :| l in p.limits && p.limits[l].Some? {
      assert l in limits;
    } else {
      assert limits == map[];
    }
  }

  lemma TameIsPerEntry(f: Features, patch: map<string, FeaturePatch>)
    ensures var cur := Entries(f, patch);
            Tame(f, patch) <==> forall k :: k in f ==>
                                  f[k].limits != Some(map[]) && (k in cur ==> f[k] != NO_GRANT || cur[k] != NO_GRANT)
  {
    forall k | k in f && k in patch && f[k] == NO_GRANT
      ensures Entries(f, patch)[k] == NO_GRANT <==> OnlyClears(patch[k])
    {
      EmptyStaysEmpty(patch[k]);
    }
  }

  /** Written over the new overrides, before gives the old ones unless an empty map or a kept empty entry is dropped. */
  lemma BeforeLeadsBack(f: Features, cur: Features)
    requires forall k :: k in cur ==> cur[k].limits != Some(map[])
    ensures Written(Next(f, cur), Before(f, cur)) == f
            <==> forall k :: k in f ==> f[k].limits != Some(map[])
                                        && (k in cur ==> f[k] != NO_GRANT || cur[k] != NO_GRANT)
  {
    forall k
      ensures k in cur && Changes(f, cur, k) ==>
                k in Before(f, cur) && Before(f, cur)[k] == Snapshot(Entry(f, k).GetOr(NO_GRANT), k in f)
    {
    }
    var w := Written(Next(f, cur), Before(f, cur));
    forall k | k in f
      ensures (Entry(w, k) == Entry(f, k)) <==>
                f[k].limits != Some(map[]) && (k in cur ==> f[k] != NO_GRANT || cur[k] != NO_GRANT)
    {
    }
    forall k | k !in f
      ensures Entry(w, k) == Entry(f, k)
    {
    }
    SameEntries(w, f);
  }

  /**
   The diff of a patch leads there and back exactly when the old overrides are tame. Normalized overrides
   are; so are the stored ones, since only patches write them.
   */
  lemma DiffIsExact(defs: map<string, FeatureDef>, f: Features, patch: map<string, FeaturePatch>, role: string)
    requires ValidPatch(defs, patch, role)
    ensures LeadsThereAndBack(f, Applied(defs, f, patch, role)) <==> Tame(f, patch)
    ensures Normalized(f) ==> Tame(f, patch)
  {
    TameIsPerEntry(f, patch);
    EntriesAreTrimmed(f, patch);
    AfterLeadsThere(f, Entries(f, patch));
    BeforeLeadsBack(f, Entries(f, patch));
  }

  lemma DiffAtKey(f: Features, cur: Features, k: string)
    requires k in f ==> f[k] != NO_GRANT && f[k].limits != Some(map[])
    requires k in cur ==> cur[k].limits != Some(map[])
    ensures k in Before(f, cur) <==> Entry(f, k) != Entry(Next(f, cur), k)
    ensures k in Before(f, cur) <==> k in After(f, cur)
    ensures k in Before(f, cur) ==> Before(f, cur)[k] == Entry(f, k) && After(f, cur)[k] == Entry(Next(f, cur), k)
  {
    assert k in f ==> Cloned(f[k]) == f[k];
    assert k in cur ==> Cloned(cur[k]) == cur[k];
  }

  /**
   On normalized overrides the diff names exactly the entries that differ, with both sides; an empty one
   means no change.
   */
  lemma DiffNamesTheChanges(defs: map<string, FeatureDef>, f: Features, patch: map<string, FeaturePatch>, role: string)
    requires ValidPatch(defs, patch, role) && Normalized(f)
    ensures var r := Applied(defs, f, patch, role);
            && (forall k :: k in r.before <==> Entry(f, k) != Entry(r.next, k))
            && r.after.Keys == r.before.Keys
            && (forall k :: k in r.before ==> r.before[k] == Entry(f, k) && r.after[k] == Entry(r.next, k))
            && (r.before == map[] <==> r.next == f)
  {
    var cur := Entries(f, patch);
    EntriesAreTrimmed(f, patch);
    forall k
      ensures k in Before(f, cur) <==> Entry(f, k) != Entry(Next(f, cur), k)
      ensures k in Before(f, cur) <==> k in After(f, cur)
      ensures k in Before(f, cur) ==> Before(f, cur)[k] == Entry(f, k) && After(f, cur)[k] == Entry(Next(f, cur), k)
    {
      DiffAtKey(f, cur, k);
    }
    SameEntries(f, Next(f, cur));
  }

  /** An entry the patch has been applied to is not changed by it again. */
  lemma EntryIsSettled(was: Option<FeatureGrant>, p: FeaturePatch)
    ensures var e := PatchedEntry(was, p); PatchedEntry(if e == NO_GRANT then None else Some(e), p) == e
  {
    var e := PatchedEntry(was, p);
    var limits := PatchedLimits(was.GetOr(NO_GRANT).limits.GetOr(map[]), p.limits);
    assert PatchedLimits(limits, p.limits) == limits;
    assert PatchedLimits(map[], p.limits) == map[] || limits != map[] by {
      assert forall l :: l in PatchedLimits(map[], p.limits) ==> l in limits;
    }
  }

  lemma EntriesSettle(f: Features, patch: map<string, FeaturePatch>)
    ensures Entries(Next(f, Entries(f, patch)), patch) == Entries(f, patch)
  {
    var cur := Entries(f, patch);
    var next := Next(f, cur);
    forall k | k in patch
      ensures PatchedEntry(Entry(next, k), patch[k]) == cur[k]
    {
      assert Entry(next, k) == if cur[k] == NO_GRANT then None else Some(cur[k]);
      EntryIsSettled(Entry(f, k), patch[k]);
    }
  }

  lemma WritingTwiceIsOnce(f: Features, cur: Features)
    ensures Next(Next(f, cur), cur) == Next(f, cur)
    ensures Before(Next(f, cur), cur) == map[] && After(Next(f, cur), cur) == map[]
  {
    var next := Next(f, cur);
    forall k | k in cur
      ensures !Changes(next, cur, k)
    {
      assert Entry(next, k) == if cur[k] == NO_GRANT then None else Some(cur[k]);
    }
    forall k
      ensures Entry(Next(next, cur), k) == Entry(next, k)
    {
    }
    SameEntries(Next(next, cur), next);
  }

  /** Applying the same patch again changes nothing and records nothing. */
  lemma PatchTwiceIsOnce(defs: map<string, FeatureDef>, f: Features, patch: map<string, FeaturePatch>, role: string)
    requires ValidPatch(defs, patch, role)
    ensures var next := Applied(defs, f, patch, role).next;
            Applied(defs, next, patch, role) == Patched(next, map[], map[])
  {
    EntriesSettle(f, patch);
    WritingTwiceIsOnce(f, Entries(f, patch));
  }

  /** Off normalized overrides a diff can miss a change: clearing an empty entry drops it and records nothing. */
  lemma EmptyEntryEscapesTheDiff() returns (f: Features, patch: map<string, FeaturePatch>)
    ensures ValidPatch(FEATURES, patch, "coach")
    ensures var r := Applied(FEATURES, f, patch, "coach"); r.before == map[] && r.after == map[] && r.next != f
  {
    f := map["chat" := NO_GRANT];
    patch := map["chat" := FeaturePatch(OptBool(true, None), map[])];
    assert PatchedLimits(map[], map[]) == map[];
    assert Entries(f, patch)["chat"] == NO_GRANT;
    assert "chat" in f && "chat" !in Applied(FEATURES, f, patch, "coach").next;
  }
}
