/** What a caller may run, and what a request comes to under that policy. */
module Permissions {
  import opened Wrappers

  datatype Tier = Quality | Balanced | Cheap | Local

  /** The ladder, best first. */
  const TIERS: seq<Tier> := [Quality, Balanced, Cheap, Local]

  function Rank(t: Tier): (r: nat)
    ensures r < |TIERS| && TIERS[r] == t
  {
    match t
    case Quality => 0
    case Balanced => 1
    case Cheap => 2
    case Local => 3
  }

  /** None is unrestricted; a provider without an allowlist has all its models. */
  datatype Policy = Policy(
    tiers: Option<seq<Tier>>, providers: Option<seq<string>>, models: Option<map<string, seq<string>>>)

  datatype Request = Request(tier: Option<Tier>, provider: Option<string>, model: Option<string>)

  datatype Entry = Entry(provider: string, model: string)

  datatype Settings = Settings(
    defaultProvider: string, defaultModels: map<string, string>, routing: map<(string, Tier), Entry>)

  datatype Selection = Selection(
    tier: Option<Tier>, provider: Option<string>, model: Option<string>, degraded: bool, skipped: bool)

  const FLOOR := Selection(None, None, None, false, true)

  /** What loading the configuration guarantees of every policy it builds. */
  predicate NoEmptyAllowlist(policy: Policy) {
    policy.models.Some? ==> forall name :: name in policy.models.value ==> policy.models.value[name] != []
  }

  function Allowlist(policy: Policy, name: string): Option<seq<string>> {
    if policy.models.Some? then Lookup(policy.models.value, name) else None
  }

  predicate TierAllowed(policy: Policy, t: Tier) {
    policy.tiers.None? || t in policy.tiers.value
  }

  predicate ProviderAllowed(policy: Policy, name: string) {
    policy.providers.None? || name in policy.providers.value
  }

  /** An absent model, or an empty name, stands for the provider's default. */
  function FilledModel(settings: Settings, name: string, model: Option<string>): Option<string> {
    if model.Some? && model.value != "" then model else Lookup(settings.defaultModels, name)
  }

  function Routed(settings: Settings, t: Tier, language: string, degraded: bool): Selection {
    match Lookup(settings.routing, (language, t))
    case None => Selection(Some(t), None, None, degraded, true)
    case Some(entry) => Selection(Some(t), Some(entry.provider), Some(entry.model), degraded, false)
  }

  function FirstAllowed(ts: seq<Tier>, policy: Policy): (r: Option<Tier>) {
    if ts == [] then None
    else if TierAllowed(policy, ts[0]) then Some(ts[0])
    else FirstAllowed(ts[1..], policy)
  }

  function Reversed(ts: seq<Tier>): seq<Tier> {
    if ts == [] then [] else [ts[|ts| - 1]] + Reversed(ts[..|ts| - 1])
  }

  function DirectFallback(policy: Policy, settings: Settings): Selection {
    var name :=
      if policy.providers.None? then Some(settings.defaultProvider)
      else if policy.providers.value != [] then Some(policy.providers.value[0])
      else None;
    match name
    case None => FLOOR
    case Some(provider) =>
      var allow := Allowlist(policy, provider);
      var model := if allow.Some? && allow.value != [] then Some(allow.value[0])
                   else Lookup(settings.defaultModels, provider);
      Selection(None, Some(provider), model, true, false)
  }

  function Below(policy: Policy, t: Tier): Option<Tier> {
    FirstAllowed(TIERS[Rank(t) + 1..], policy)
  }

  function Above(policy: Policy, t: Tier): Option<Tier> {
    FirstAllowed(Reversed(TIERS[..Rank(t)]), policy)
  }

  function ResolveTier(policy: Policy, t: Tier, language: string, settings: Settings): Selection {
    if TierAllowed(policy, t) then Routed(settings, t, language, false)
    else
      var substitute := if Below(policy, t).Some? then Below(policy, t) else Above(policy, t);
      if substitute.Some? then Routed(settings, substitute.value, language, true)
      else DirectFallback(policy, settings)
  }

  function ResolveDirect(policy: Policy, name: string, model: Option<string>, language: string, settings: Settings)
    : Selection
    requires NoEmptyAllowlist(policy)
  {
    if ProviderAllowed(policy, name) then
      var allow := Allowlist(policy, name);
      var filled := FilledModel(settings, name, model);
      if allow.None? || (filled.Some? && filled.value in allow.value)
      then Selection(None, Some(name), filled, false, false)
      else Selection(None, Some(name), Some(allow.value[0]), true, false)
    else
      match FirstAllowed(TIERS, policy)
      case Some(best) => Routed(settings, best, language, true)
      case None => DirectFallback(policy, settings)
  }

  function Filled(requested: Request, settings: Settings): Request {
    if requested.tier.None? && requested.provider.None?
    then requested.(provider := Some(settings.defaultProvider)) else requested
  }

  function Resolve(policy: Policy, requested: Request, language: string, settings: Settings): Selection
    requires NoEmptyAllowlist(policy)
  {
    var r := Filled(requested, settings);
    if r.tier.Some? then ResolveTier(policy, r.tier.value, language, settings)
    else ResolveDirect(policy, r.provider.value, r.model, language, settings)
  }

  // ---- What the resolution means ----

  /** A result the policy lets the caller run. */
  predicate Permitted(policy: Policy, s: Selection) {
    match s.tier
    case Some(t) => TierAllowed(policy, t)
    case None =>
      s.provider.Some? ==>
        && ProviderAllowed(policy, s.provider.value)
        && (Allowlist(policy, s.provider.value).Some? ==>
              s.model.Some? && s.model.value in Allowlist(policy, s.provider.value).value)
  }

  lemma {:induction false} FirstAllowedMeans(ts: seq<Tier>, policy: Policy)
    ensures FirstAllowed(ts, policy).None? ==> forall t :: t in ts ==> !TierAllowed(policy, t)
    ensures FirstAllowed(ts, policy).Some? ==>
              exists i :: 0 <= i < |ts| && ts[i] == FirstAllowed(ts, policy).value && TierAllowed(policy, ts[i])
                          && forall j :: 0 <= j < i ==> !TierAllowed(policy, ts[j])
  {
    if ts != [] && !TierAllowed(policy, ts[0]) {
      FirstAllowedMeans(ts[1..], policy);
      if FirstAllowed(ts, policy).Some? {
        var i :| 0 <= i < |ts| - 1 && ts[1..][i] == FirstAllowed(ts, policy).value && TierAllowed(policy, ts[1..][i])
                 && forall j :: 0 <= j < i ==> !TierAllowed(policy, ts[1..][j]);
        assert ts[i + 1] == ts[1..][i];
        assert forall j :: 0 < j < i + 1 ==> ts[j] == ts[1..][j - 1];
      }
    }
  }

  /** What every resolution keeps to. */
  predicate Sound(policy: Policy, s: Selection) {
    && Permitted(policy, s)
    && (s == FLOOR <==> policy.tiers == Some([]) && policy.providers == Some([]))
    && (s.tier.None? && s.provider.None? ==> s == FLOOR)
  }

  lemma TierIsSound(policy: Policy, t: Tier, language: string, settings: Settings)
    requires NoEmptyAllowlist(policy)
    ensures Sound(policy, ResolveTier(policy, t, language, settings))
  {
    BelowIsNearest(policy, t);
    AboveIsNearest(policy, t);
    if policy.tiers == Some([]) {
    } else if !TierAllowed(policy, t) {
      LadderReaches(policy, t);
    }
  }

  lemma DirectIsSound(policy: Policy, name: string, model: Option<string>, language: string, settings: Settings)
    requires NoEmptyAllowlist(policy)
    ensures Sound(policy, ResolveDirect(policy, name, model, language, settings))
  {
    FirstAllowedMeans(TIERS, policy);
    if policy.tiers == Some([]) {
    } else if policy.tiers.Some? {
      var u := policy.tiers.value[0];
      assert TierAllowed(policy, u) && TIERS[Rank(u)] == u;
    } else {
      assert TierAllowed(policy, TIERS[0]);
    }
  }

  /** The effective tier, or the provider and model, are always permitted, and
      only a policy that allows nothing yields nothing. */
  lemma EffectiveIsPermitted(policy: Policy, requested: Request, language: string, settings: Settings)
    requires NoEmptyAllowlist(policy)
    ensures var s := Resolve(policy, requested, language, settings);
            && Permitted(policy, s)
            && (s == FLOOR <==> policy.tiers == Some([]) && policy.providers == Some([]))
            && (s.tier.None? && s.provider.None? ==> s == FLOOR)
  {
    var r := Filled(requested, settings);
    if r.tier.Some? {
      TierIsSound(policy, r.tier.value, language, settings);
    } else {
      DirectIsSound(policy, r.provider.value, r.model, language, settings);
    }
  }

  lemma BelowIsNearest(policy: Policy, t: Tier)
    ensures Below(policy, t).Some? ==> NearestBelow(policy, t, Below(policy, t).value)
    ensures Below(policy, t).None? ==> forall u: Tier :: Rank(u) > Rank(t) ==> !TierAllowed(policy, u)
  {
    var down := TIERS[Rank(t) + 1..];
    FirstAllowedMeans(down, policy);
    forall u: Tier ensures Rank(u) > Rank(t) ==> u == down[Rank(u) - Rank(t) - 1] {
      assert TIERS[Rank(u)] == u;
    }
    forall i | 0 <= i < |down| ensures Rank(down[i]) == Rank(t) + 1 + i {
    }
  }

  lemma AboveIsNearest(policy: Policy, t: Tier)
    ensures Above(policy, t).Some? ==> NearestAbove(policy, t, Above(policy, t).value)
    ensures Above(policy, t).None? ==> forall u: Tier :: Rank(u) < Rank(t) ==> !TierAllowed(policy, u)
  {
    var up := Reversed(TIERS[..Rank(t)]);
    FirstAllowedMeans(up, policy);
    ReversedAt(TIERS[..Rank(t)]);
    forall u: Tier ensures Rank(u) < Rank(t) ==> u == up[Rank(t) - 1 - Rank(u)] {
      assert TIERS[Rank(u)] == u;
    }
    forall i | 0 <= i < |up| ensures Rank(up[i]) == Rank(t) - 1 - i {
    }
  }

  lemma LadderReaches(policy: Policy, t: Tier)
    requires policy.tiers != Some([]) && !TierAllowed(policy, t)
    ensures Below(policy, t).Some? || Above(policy, t).Some?
  {
    BelowIsNearest(policy, t);
    AboveIsNearest(policy, t);
    var u := policy.tiers.value[0];
    assert TierAllowed(policy, u) && (Rank(u) == Rank(t) ==> u == t);
  }

  lemma {:induction false} ReversedAt(ts: seq<Tier>)
    ensures |Reversed(ts)| == |ts|
    ensures forall i :: 0 <= i < |ts| ==> Reversed(ts)[i] == ts[|ts| - 1 - i]
  {
    if ts != [] {
      ReversedAt(ts[..|ts| - 1]);
    }
  }

  predicate NearestBelow(policy: Policy, t: Tier, u: Tier) {
    && TierAllowed(policy, u) && Rank(u) > Rank(t)
    && forall v: Tier :: Rank(t) < Rank(v) < Rank(u) ==> !TierAllowed(policy, v)
  }

  predicate NearestAbove(policy: Policy, t: Tier, u: Tier) {
    && TierAllowed(policy, u) && Rank(u) < Rank(t)
    && forall v: Tier :: Rank(u) < Rank(v) < Rank(t) ==> !TierAllowed(policy, v)
  }

  /** A requested tier runs as itself when allowed, else as the nearest allowed
      below it, and as the nearest above only when there is none below. */
  lemma SubstituteIsNearest(policy: Policy, requested: Request, language: string, settings: Settings)
    requires NoEmptyAllowlist(policy) && requested.tier.Some? && policy.tiers != Some([])
    ensures var t := requested.tier.value;
            var s := Resolve(policy, requested, language, settings);
            && s.tier.Some?
            && (if TierAllowed(policy, t) then s.tier.value == t
                else if exists u: Tier :: Rank(u) > Rank(t) && TierAllowed(policy, u)
                then NearestBelow(policy, t, s.tier.value)
                else NearestAbove(policy, t, s.tier.value))
  {
    var t := requested.tier.value;
    BelowIsNearest(policy, t);
    AboveIsNearest(policy, t);
    if !TierAllowed(policy, t) {
      LadderReaches(policy, t);
    }
  }

  // ---- What each request comes to ----

  predicate Granted(policy: Policy, t: Tier) {
    policy.tiers == None || t in policy.tiers.value
  }

  /** A tier runs with the provider and model of its routing entry, and is
      skipped when there is none; without a tier only the floor is skipped. */
  predicate IsRouted(s: Selection, language: string, settings: Settings) {
    match s.tier
    case Some(t) =>
      if (language, t) in settings.routing then
        var entry := settings.routing[(language, t)];
        s.provider == Some(entry.provider) && s.model == Some(entry.model) && !s.skipped
      else
        s.provider == None && s.model == None && s.skipped
    case None => s.skipped <==> s.provider == None
  }

  /** With no tier to fall back on: the policy's first provider, or the server's
      default where providers are unrestricted, with the first listed model, or
      the provider's default where there is no list; nothing at all when no
      provider is allowed. */
  predicate IsFallback(s: Selection, policy: Policy, settings: Settings) {
    if policy.providers == Some([]) then s == Selection(None, None, None, false, true)
    else
      var name := match policy.providers case None => settings.defaultProvider case Some(names) => names[0];
      && s.tier == None && s.provider == Some(name) && s.degraded && !s.skipped
      && s.model == if policy.models.Some? && name in policy.models.value && policy.models.value[name] != []
                    then Some(policy.models.value[name][0])
                    else Lookup(settings.defaultModels, name)
  }

  /** An allowed tier runs as itself; any other as the nearest allowed below
      it, or above it when none below is allowed. */
  predicate IsTierAnswer(s: Selection, policy: Policy, t: Tier, settings: Settings) {
    if Granted(policy, t) then s.tier == Some(t) && !s.degraded
    else if policy.tiers == Some([]) then IsFallback(s, policy, settings)
    else
      && s.tier.Some? && s.degraded && Granted(policy, s.tier.value)
      && (Rank(s.tier.value) > Rank(t) ==>
            forall u: Tier :: Rank(t) < Rank(u) < Rank(s.tier.value) ==> !Granted(policy, u))
      && (Rank(s.tier.value) < Rank(t) ==>
            forall u: Tier :: Rank(u) > Rank(s.tier.value) && u != t ==> !Granted(policy, u))
  }

  /** An allowed provider runs the model asked for, or its default when none or
      an empty name is, if a list does not exclude it, and else the first on the
      list; any other request runs at the best allowed tier. */
  predicate IsDirectAnswer(s: Selection, policy: Policy, name: string, model: Option<string>, settings: Settings) {
    if policy.providers == None || name in policy.providers.value then
      var wanted := if model == None || model == Some("") then Lookup(settings.defaultModels, name) else model;
      var listed := policy.models.Some? && name in policy.models.value;
      var fits := !listed || (wanted.Some? && wanted.value in policy.models.value[name]);
      && s.tier == None && s.provider == Some(name) && s.degraded == !fits
      && (if fits then s.model == wanted
          else policy.models.value[name] != [] && s.model == Some(policy.models.value[name][0]))
    else if policy.tiers == Some([]) then IsFallback(s, policy, settings)
    else
      && s.tier.Some? && s.degraded && Granted(policy, s.tier.value)
      && forall u: Tier :: Granted(policy, u) ==> Rank(s.tier.value) <= Rank(u)
  }

  /** Every result, from the policy, the request and the settings alone. */
  predicate IsAnswer(s: Selection, policy: Policy, requested: Request, language: string, settings: Settings) {
    && IsRouted(s, language, settings)
    && (if requested.tier.Some? then IsTierAnswer(s, policy, requested.tier.value, settings)
        else
          var name := if requested.provider.Some? then requested.provider.value else settings.defaultProvider;
          IsDirectAnswer(s, policy, name, requested.model, settings))
  }

  lemma FallbackIs(policy: Policy, settings: Settings, language: string)
    ensures IsFallback(DirectFallback(policy, settings), policy, settings)
    ensures IsRouted(DirectFallback(policy, settings), language, settings)
  {
  }

  lemma RoutedIs(settings: Settings, t: Tier, language: string, degraded: bool)
    ensures var s := Routed(settings, t, language, degraded);
            IsRouted(s, language, settings) && s.tier == Some(t) && s.degraded == degraded
  {
  }

  lemma TierAnswer(policy: Policy, t: Tier, language: string, settings: Settings)
    ensures var s := ResolveTier(policy, t, language, settings);
            IsRouted(s, language, settings) && IsTierAnswer(s, policy, t, settings)
  {
    FallbackIs(policy, settings, language);
    BelowIsNearest(policy, t);
    AboveIsNearest(policy, t);
    if Granted(policy, t) {
      RoutedIs(settings, t, language, false);
    } else if policy.tiers != Some([]) {
      LadderReaches(policy, t);
      var substitute := if Below(policy, t).Some? then Below(policy, t).value else Above(policy, t).value;
      RoutedIs(settings, substitute, language, true);
      forall u: Tier ensures Granted(policy, u) <==> TierAllowed(policy, u) {
      }
      SameRank(t);
    }
  }

  lemma SameRank(t: Tier)
    ensures forall u: Tier :: Rank(u) == Rank(t) ==> u == t
  {
  }

  lemma DirectAnswer(policy: Policy, name: string, model: Option<string>, language: string, settings: Settings)
    requires NoEmptyAllowlist(policy)
    ensures var s := ResolveDirect(policy, name, model, language, settings);
            IsRouted(s, language, settings) && IsDirectAnswer(s, policy, name, model, settings)
  {
    FallbackIs(policy, settings, language);
    if !ProviderAllowed(policy, name) {
      FirstAllowedMeans(TIERS, policy);
      var best := FirstAllowed(TIERS, policy);
      if best.Some? {
        RoutedIs(settings, best.value, language, true);
        BestIsFirst(policy, best.value);
      } else {
        assert policy.tiers.Some? && forall u <- policy.tiers.value :: TIERS[Rank(u)] == u;
        assert policy.tiers.value != [] ==> TierAllowed(policy, policy.tiers.value[0]);
      }
    }
  }

  lemma BestIsFirst(policy: Policy, best: Tier)
    requires FirstAllowed(TIERS, policy) == Some(best)
    ensures Granted(policy, best) && policy.tiers != Some([])
    ensures forall u: Tier :: Granted(policy, u) ==> Rank(best) <= Rank(u)
  {
    FirstAllowedMeans(TIERS, policy);
    var i :| 0 <= i < |TIERS| && TIERS[i] == best && TierAllowed(policy, TIERS[i])
             && forall j :: 0 <= j < i ==> !TierAllowed(policy, TIERS[j]);
    forall u: Tier | Granted(policy, u) ensures Rank(best) <= Rank(u) {
      assert TIERS[Rank(u)] == u;
    }
  }

  lemma ResolveAnswers(policy: Policy, requested: Request, language: string, settings: Settings)
    requires NoEmptyAllowlist(policy)
    ensures IsAnswer(Resolve(policy, requested, language, settings), policy, requested, language, settings)
  {
    var r := Filled(requested, settings);
    if r.tier.Some? {
      TierAnswer(policy, r.tier.value, language, settings);
    } else {
      DirectAnswer(policy, r.provider.value, r.model, language, settings);
    }
  }

  /** The request with its defaults filled in, as a selection. */
  predicate Honours(s: Selection, requested: Request, settings: Settings) {
    var r := Filled(requested, settings);
    if r.tier.Some? then s.tier == r.tier
    else s.tier == None && s.provider == r.provider && s.model == FilledModel(settings, r.provider.value, r.model)
  }

  lemma TierDegraded(policy: Policy, t: Tier, language: string, settings: Settings)
    ensures var s := ResolveTier(policy, t, language, settings);
            s.degraded <==> s != FLOOR && s.tier != Some(t)
  {
    if !TierAllowed(policy, t) {
      BelowIsNearest(policy, t);
      AboveIsNearest(policy, t);
    }
  }

  lemma DirectDegraded(policy: Policy, name: string, model: Option<string>, language: string, settings: Settings)
    requires NoEmptyAllowlist(policy)
    ensures var s := ResolveDirect(policy, name, model, language, settings);
            s.degraded <==>
              s != FLOOR && !(s.tier == None && s.provider == Some(name) && s.model == FilledModel(settings, name, model))
  {
    if ProviderAllowed(policy, name) {
      var allow := Allowlist(policy, name);
      assert allow.Some? ==> allow.value[0] in allow.value;
    } else {
      assert policy.providers.value != [] ==> policy.providers.value[0] in policy.providers.value;
    }
  }

  /** A result other than the floor is marked degraded exactly when it differs
      from the request with its defaults filled in; the floor never is. */
  lemma DegradedMeansDifferent(policy: Policy, requested: Request, language: string, settings: Settings)
    requires NoEmptyAllowlist(policy)
    ensures var s := Resolve(policy, requested, language, settings);
            s.degraded <==> s != FLOOR && !Honours(s, requested, settings)
  {
    var r := Filled(requested, settings);
    if r.tier.Some? {
      TierDegraded(policy, r.tier.value, language, settings);
    } else {
      DirectDegraded(policy, r.provider.value, r.model, language, settings);
    }
  }

  function Again(s: Selection): Request {
    Request(s.tier, s.provider, s.model)
  }

  /** Asking again for what one got returns it, undegraded, exactly when the
      result does not name a model by an empty string that is no default. */
  lemma ResolvingAgainChangesNothing(policy: Policy, requested: Request, language: string, settings: Settings)
    requires NoEmptyAllowlist(policy)
    ensures var s := Resolve(policy, requested, language, settings);
            Resolve(policy, Again(s), language, settings) == s.(degraded := false)
            <==> s.tier.Some? || s.model != Some("")
                 || Lookup(settings.defaultModels, s.provider.value) == Some("")
  {
    EffectiveIsPermitted(policy, requested, language, settings);
    var s := Resolve(policy, requested, language, settings);
    FirstAllowedMeans(TIERS, policy);
  }

  predicate Stable(policy: Policy, requested: Request, language: string, settings: Settings)
    requires NoEmptyAllowlist(policy)
  {
    var s := Resolve(policy, requested, language, settings);
    Resolve(policy, Again(s), language, settings) == s.(degraded := false)
  }

  /** A provider the policy allows whose allowlist begins with an empty name
      that is not the provider's default. */
  predicate Nameless(policy: Policy, settings: Settings, name: string)
    requires NoEmptyAllowlist(policy)
  {
    && ProviderAllowed(policy, name) && Allowlist(policy, name).Some?
    && Allowlist(policy, name).value[0] == ""
    && Lookup(settings.defaultModels, name) != Some("")
  }

  /** Where an empty model name in a direct result comes from. */
  lemma EmptyModelComesFrom(policy: Policy, requested: Request, language: string, settings: Settings)
    requires NoEmptyAllowlist(policy)
    ensures var s := Resolve(policy, requested, language, settings);
            s.tier.None? && s.model == Some("") ==>
              && s.provider.Some? && ProviderAllowed(policy, s.provider.value)
              && (|| Lookup(settings.defaultModels, s.provider.value) == Some("")
                  || Nameless(policy, settings, s.provider.value))
  {
    EffectiveIsPermitted(policy, requested, language, settings);
  }

  lemma NoNamelessIsStable(policy: Policy, requested: Request, language: string, settings: Settings)
    requires NoEmptyAllowlist(policy)
    requires forall name :: !Nameless(policy, settings, name)
    ensures Stable(policy, requested, language, settings)
  {
    EmptyModelComesFrom(policy, requested, language, settings);
    ResolvingAgainChangesNothing(policy, requested, language, settings);
  }

  /** Some name that is on no list and not empty. */
  function Longer(models: seq<string>): (m: string)
    ensures m != "" && forall i :: 0 <= i < |models| ==> |models[i]| < |m|
  {
    if models == [] then "m"
    else
      var rest := Longer(models[1..]);
      assert forall i :: 0 < i < |models| ==> models[i] == models[1..][i - 1];
      rest + models[0] + "m"
  }

  lemma NamelessIsUnstable(policy: Policy, language: string, settings: Settings, name: string)
    requires NoEmptyAllowlist(policy) && Nameless(policy, settings, name)
    ensures !Stable(policy, Request(None, Some(name), Some(Longer(Allowlist(policy, name).value))), language, settings)
  {
    var allow := Allowlist(policy, name).value;
    var requested := Request(None, Some(name), Some(Longer(allow)));
    assert Longer(allow) !in allow;
    assert Resolve(policy, requested, language, settings) == Selection(None, Some(name), Some(""), true, false);
    ResolvingAgainChangesNothing(policy, requested, language, settings);
  }

  /** Under a policy and settings every request is stable, that is, resolving
      its result again returns it undegraded, exactly when no allowed provider's
      allowlist begins with an empty name that is not its default. */
  lemma StableForEveryRequest(policy: Policy, language: string, settings: Settings)
    requires NoEmptyAllowlist(policy)
    ensures (forall requested :: Stable(policy, requested, language, settings))
       <==> (forall name :: !Nameless(policy, settings, name))
  {
    if name :| Nameless(policy, settings, name) {
      NamelessIsUnstable(policy, language, settings, name);
    } else {
      forall requested ensures Stable(policy, requested, language, settings) {
        NoNamelessIsStable(policy, requested, language, settings);
      }
    }
  }

  /** So with names that are not empty resolving again changes nothing. */
  lemma NamedAllowlistsAreStable(policy: Policy, requested: Request, language: string, settings: Settings)
    requires NoEmptyAllowlist(policy)
    requires policy.models.Some? ==>
               forall name :: name in policy.models.value ==> policy.models.value[name][0] != ""
    ensures Resolve(policy, Again(Resolve(policy, requested, language, settings)), language, settings)
            == Resolve(policy, requested, language, settings).(degraded := false)
  {
    assert forall name :: !Nameless(policy, settings, name);
    NoNamelessIsStable(policy, requested, language, settings);
  }
}
