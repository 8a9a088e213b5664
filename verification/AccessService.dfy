/** Setting a coach's or a client's feature access, from the checks on the account to the stored grant. */
module AccessService {
  import opened Common
  import opened Registry
  import opened Patch
  import opened Grantable
  import G = Grants
  import R = Resolution
  import P = Precedence

  datatype Reply = Answer(result: G.Result) | NoSuchUser | NotACoach | NotLinked | Unavailable

  /** Account roles that resolve as coaches. */
  predicate IsCoachRole(role: string) {
    role == "coach" || role == "nutritionist"
  }

  predicate GetsKey(defs: map<string, FeatureDef>, patch: map<string, FeaturePatch>, inp: R.Input, coach: R.Resolved,
                    k: string) {
    k in patch ==>
      k in defs && ComesOut(patch[k], P.ParentIsOn(defs, CLIENT, inp, k), R.Computed(defs, CLIENT, inp, Some(coach))[k])
  }

  /** Every feature of the patch comes out of the client's resolution as the patch has it. */
  ghost predicate GetsWhatWasGranted(defs: map<string, FeatureDef>, patch: map<string, FeaturePatch>, inp: R.Input,
                                     coach: R.Resolved) {
    forall k :: GetsKey(defs, patch, inp, coach, k)
  }

  lemma MadeIsServed(defs: map<string, FeatureDef>, was: Option<G.Grant>, r: G.Request, inp: R.Input, coach: R.Resolved)
    requires WellFormed(defs) && R.WellShaped(defs, coach) && !r.byAdmin && ValidPatch(defs, r.patch, CLIENT)
    requires AllGrantable(r.patch, coach) && inp.grant == Some(G.Made(defs, was, r).features)
    ensures GetsWhatWasGranted(defs, r.patch, inp, coach)
  {
    assert G.Made(defs, was, r).features == Applied(defs, G.Base(was, r), r.patch, CLIENT).next;
    forall k
      ensures GetsKey(defs, r.patch, inp, coach, k)
    {
      if k in r.patch {
        GrantedIsServed(defs, G.Base(was, r), r.patch, inp, coach, k);
      }
    }
  }

  class Service {
    const defs: map<string, FeatureDef>
    const store: G.GrantStore
    /** Account roles, and each client's coach. */
    var roles: map<Id, string>
    var coachOf: map<Id, Id>

    constructor (defs: map<string, FeatureDef>, roles: map<Id, string>, coachOf: map<Id, Id>)
      ensures this.defs == defs && this.roles == roles && this.coachOf == coachOf && fresh(store) && store.docs == map[]
              && store.defs == defs
    {
      this.defs, this.roles, this.coachOf := defs, roles, coachOf;
      store := new G.GrantStore(defs);
    }

    method SetCoachAccess(coach: Id, patch: map<string, FeaturePatch>, quoted: Option<int>) returns (reply: Reply)
      requires store.defs == defs
      modifies store
      ensures var r := G.Request(true, "", patch, quoted);
              && (reply.NoSuchUser? <==> coach !in roles)
              && (reply.NotACoach? <==> coach in roles && roles[coach] != "coach" && roles[coach] != "nutritionist")
              && (coach in roles && roles[coach] in {"coach", "nutritionist"} ==>
                    reply == Answer(if ValidPatch(defs, patch, COACH)
                                    then G.WriteResult(defs, old(G.DocOf(store.docs, coach)),
                                                       old(G.DocOf(store.docs, coach)), r)
                                    else G.BadRequest))
              && store.docs == if reply.Answer? && reply.result.Wrote?
                               then old(store.docs)[coach := G.Made(defs, old(G.DocOf(store.docs, coach)), r)]
                               else old(store.docs)
    {
      if coach !in roles {
        return NoSuchUser;
      }
      if !IsCoachRole(roles[coach]) {
        return NotACoach;
      }
      var res := store.SetAccess(coach, G.Request(true, "", patch, quoted), true);
      return Answer(res);
    }

    /** eff is the coach's resolution, None when it cannot be had. */
    method SetClientAccess(coach: Id, client: Id, patch: map<string, FeaturePatch>, quoted: Option<int>,
                           eff: Option<R.Resolved>) returns (reply: Reply)
      requires store.defs == defs && WellFormed(defs) && (eff.Some? ==> R.WellShaped(defs, eff.value))
      modifies store
      ensures var r, was := G.Request(false, coach, patch, quoted), old(G.DocOf(store.docs, client));
              && (reply.NotLinked? <==> client !in coachOf || coachOf[client] != coach)
              && (reply.Unavailable? <==> client in coachOf && coachOf[client] == coach
                                          && ValidPatch(defs, patch, CLIENT) && eff.None?)
              && (client in coachOf && coachOf[client] == coach && !reply.Unavailable? ==>
                    reply == Answer(if !ValidPatch(defs, patch, CLIENT) then G.BadRequest
                                    else if !AllGrantable(patch, eff.value) then G.Refused
                                    else G.WriteResult(defs, was, was, r)))
              && store.docs == if reply.Answer? && reply.result.Wrote?
                               then old(store.docs)[client := G.Made(defs, was, r)] else old(store.docs)
      ensures reply.Answer? && reply.result.Wrote? ==>
                eff.Some? && forall inp: R.Input :: inp.grant == Some(store.docs[client].features) ==>
                               GetsWhatWasGranted(defs, patch, inp, eff.value)
    {
      if client !in coachOf || coachOf[client] != coach {
        return NotLinked;
      }
      var r := G.Request(false, coach, patch, quoted);
      ghost var was := G.DocOf(store.docs, client);
      var valid := PatchPasses(patch, was);
      if !valid {
        return Answer(G.BadRequest);
      }
      if eff.None? {
        return Unavailable;
      }
      var grantable := CheckGrantable(patch, eff.value);
      var res := store.SetAccess(client, r, grantable);
      if res.Wrote? {
        forall inp: R.Input | inp.grant == Some(store.docs[client].features)
          ensures GetsWhatWasGranted(defs, patch, inp, eff.value)
        {
          MadeIsServed(defs, was, r, inp, eff.value);
        }
      }
      return Answer(res);
    }

    /** The patch is applied before the coach is resolved; a bad one is refused at once. */
    method PatchPasses(patch: map<string, FeaturePatch>, ghost was: Option<G.Grant>) returns (ok: bool)
      ensures ok <==> ValidPatch(defs, patch, CLIENT)
    {
      var p := ApplyPatch(defs, map[], patch, CLIENT);
      return p.Patched?;
    }
  }
}
