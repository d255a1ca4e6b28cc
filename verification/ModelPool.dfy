/** Model routes, fallback and the circuit breaker (models/model_pool.py). */
module ModelPool {
  import opened Prelude

  type Name = string

  type Time = int

  datatype Profile = Profile(fallbacks: seq<Name>)

  datatype Event = Success | Failure(at: Time, forced: bool)

  datatype Health = Health(failures: nat, disabledUntil: Time)

  const HEALTHY := Health(0, 0)

  // ----- the circuit breaker -----

  /** The record after one more event; a failure at or above the threshold opens the circuit. */
  function After(threshold: nat, cooldown: nat, h: Health, e: Event): Health {
    match e
    case Success => HEALTHY
    case Failure(at, forced) =>
      Health(h.failures + 1, if forced || h.failures + 1 >= threshold then at + cooldown else h.disabledUntil)
  }

  function HealthAfter(threshold: nat, cooldown: nat, events: seq<Event>, n: nat): Health
    requires n <= |events|
  {
    if n == 0 then HEALTHY else After(threshold, cooldown, HealthAfter(threshold, cooldown, events, n - 1), events[n - 1])
  }

  /** How many of the last events are failures without a success after them. */
  function Streak(events: seq<Event>, n: nat): (k: nat)
    requires n <= |events|
    ensures k <= n && (forall i :: n - k <= i < n ==> events[i].Failure?) && (k < n ==> events[n - k - 1].Success?)
  {
    if n == 0 || events[n - 1].Success? then 0 else 1 + Streak(events, n - 1)
  }

  /** The record of a history: its failure count is the current streak, and the circuit was last
      opened by a failure of that streak that was forced or completed the threshold. */
  lemma {:induction false} HealthOfStreak(threshold: nat, cooldown: nat, events: seq<Event>, n: nat)
    requires n <= |events|
    ensures HealthAfter(threshold, cooldown, events, n).failures == Streak(events, n)
    ensures HealthAfter(threshold, cooldown, events, n).disabledUntil != 0 ==>
      exists i :: n - Streak(events, n) <= i < n && events[i].Failure?
        && HealthAfter(threshold, cooldown, events, n).disabledUntil == events[i].at + cooldown
        && (events[i].forced || Streak(events, i + 1) >= threshold)
  {
    if n > 0 && events[n - 1].Failure? {
      HealthOfStreak(threshold, cooldown, events, n - 1);
      var h, before := HealthAfter(threshold, cooldown, events, n), HealthAfter(threshold, cooldown, events, n - 1);
      if events[n - 1].forced || before.failures + 1 >= threshold {
        assert h.disabledUntil == events[n - 1].at + cooldown && Streak(events, n - 1 + 1) == h.failures;
      } else if before.disabledUntil != 0 {
        var i :| n - 1 - Streak(events, n - 1) <= i < n - 1 && events[i].Failure? && before.disabledUntil == events[i].at + cooldown
          && (events[i].forced || Streak(events, i + 1) >= threshold);
        assert n - Streak(events, n) <= i < n;
      }
    }
  }

  lemma {:induction false} StreakGrows(events: seq<Event>, m: nat, n: nat)
    requires m <= n <= |events| && n - Streak(events, n) < m
    ensures Streak(events, m) <= Streak(events, n)
  {
    if m < n { StreakGrows(events, m, n - 1); }
  }

  /** Without forced disables a profile is only unavailable after as many failures in a row as
      the threshold says, since its last success. */
  lemma DisabledOnlyByStreak(threshold: nat, cooldown: nat, events: seq<Event>, now: Time)
    requires 0 <= now && now < HealthAfter(threshold, cooldown, events, |events|).disabledUntil
    requires forall i :: 0 <= i < |events| && events[i].Failure? ==> !events[i].forced
    ensures threshold <= Streak(events, |events|)
  {
    HealthOfStreak(threshold, cooldown, events, |events|);
    var i :| |events| - Streak(events, |events|) <= i < |events| && events[i].Failure?
      && HealthAfter(threshold, cooldown, events, |events|).disabledUntil == events[i].at + cooldown
      && (events[i].forced || Streak(events, i + 1) >= threshold);
    StreakGrows(events, i + 1, |events|);
  }

  /** And that many failures in a row do open it, for the cooldown after the last of them. */
  lemma StreakDisables(threshold: nat, cooldown: nat, events: seq<Event>)
    requires events != [] && events[|events| - 1].Failure? && threshold <= Streak(events, |events|)
    ensures HealthAfter(threshold, cooldown, events, |events|).disabledUntil == events[|events| - 1].at + cooldown
  {
    HealthOfStreak(threshold, cooldown, events, |events| - 1);
  }

  // ----- the chain of a route -----

  /** The listed profiles, each followed by its fallbacks. */
  function Expanded(profiles: map<Name, Profile>, names: seq<Name>, n: nat): seq<Name>
    requires n <= |names|
  {
    if n == 0 then [] else
    Expanded(profiles, names, n - 1)
      + [names[n - 1]] + if names[n - 1] in profiles then profiles[names[n - 1]].fallbacks else []
  }

  /** The first occurrences, in order. */
  function Distinct(names: seq<Name>, n: nat): seq<Name>
    requires n <= |names|
  {
    if n == 0 then [] else
    var before := Distinct(names, n - 1);
    if names[n - 1] in before then before else before + [names[n - 1]]
  }

  predicate NoneTwice(names: seq<Name>) {
    forall i, j :: 0 <= i < j < |names| ==> names[i] != names[j]
  }

  /** Each name once, and the same names. */
  lemma {:induction false} DistinctIsDistinct(names: seq<Name>, n: nat)
    requires n <= |names|
    ensures NoneTwice(Distinct(names, n)) && forall x :: x in Distinct(names, n) <==> x in names[..n]
  {
    if n > 0 {
      DistinctIsDistinct(names, n - 1);
      assert names[..n] == names[..n - 1] + [names[n - 1]];
    }
  }

  predicate Known(profiles: map<Name, Profile>, name: Name) {
    name in profiles && forall f :: f in profiles[name].fallbacks ==> f in profiles
  }

  predicate AllKnown(profiles: map<Name, Profile>, names: seq<Name>, n: nat)
    requires n <= |names|
  {
    forall i :: 0 <= i < n ==> Known(profiles, names[i])
  }

  /** The profiles a route may use, in order, each once. */
  function Chain(profiles: map<Name, Profile>, names: seq<Name>, n: nat): seq<Name>
    requires n <= |names|
  {
    Distinct(Expanded(profiles, names, n), |Expanded(profiles, names, n)|)
  }

  lemma {:induction false} DistinctSplits(a: seq<Name>, b: seq<Name>, n: nat)
    requires n <= |a|
    ensures Distinct(a + b, n) == Distinct(a, n)
  {
    if n > 0 { DistinctSplits(a, b, n - 1); }
  }

  lemma {:induction false} DistinctOn(names: seq<Name>, name: Name)
    ensures Distinct(names + [name], |names| + 1) ==
      Distinct(names, |names|) + if name in Distinct(names, |names|) then [] else [name]
  {
    var more, n := names + [name], |names|;
    DistinctSplits(names, [name], n);
    assert more[n] == name && Distinct(more, n) == Distinct(names, n);
  }

  // ----- one call over the chain -----

  // Why a provider call failed; a status code says whether another profile may be tried.
  datatype Failure = Protocol | Stopped | Http(status: int) | Other

  predicate MayFallBack(f: Failure) {
    f.Other? || (f.Http? && (f.status == 408 || f.status == 409 || f.status == 429 || f.status >= 500))
  }

  /** One provider call: the text pieces it hands out, and how it ends. */
  datatype Outcome = Outcome(pieces: seq<string>, failure: Option<Failure>)

  predicate Emits(pieces: seq<string>) {
    exists t :: t in pieces && t != ""
  }

  datatype Attempt = Attempt(profile: Name, ok: bool)

  datatype CallResult =
    | Answered(profile: Name, retryCount: nat, attempts: seq<Attempt>)
    | Raised(profile: Name, failure: Failure)
    | NoRoute(attempts: seq<Attempt>)

  datatype Piece = Piece(profile: Name, text: string)

  function Tagged(profile: Name, pieces: seq<string>): seq<Piece> {
    seq(|pieces|, i requires 0 <= i < |pieces| => Piece(profile, pieces[i]))
  }

  /** What the user hears from the first `n` profiles of the chain. */
  function Heard(chain: seq<Name>, outcomes: Name -> Outcome, n: nat): seq<Piece>
    requires n <= |chain|
  {
    if n == 0 then [] else Heard(chain, outcomes, n - 1) + Tagged(chain[n - 1], outcomes(chain[n - 1]).pieces)
  }

  /** The call goes on to the next profile. */
  predicate Passes(stream: bool, o: Outcome) {
    o.failure.Some? && MayFallBack(o.failure.value) && !(stream && Emits(o.pieces))
  }

  function FailedAttempts(chain: seq<Name>, n: nat): seq<Attempt>
    requires n <= |chain|
  {
    seq(n, i requires 0 <= i < n => Attempt(chain[i], false))
  }

  lemma {:induction false} SilentBefore(chain: seq<Name>, outcomes: Name -> Outcome, n: nat)
    requires n <= |chain| && forall i :: 0 <= i < n ==> !Emits(outcomes(chain[i]).pieces)
    ensures forall p :: p in Heard(chain, outcomes, n) ==> p.text == ""
  {
    if n > 0 {
      SilentBefore(chain, outcomes, n - 1);
      var pieces := outcomes(chain[n - 1]).pieces;
      forall p | p in Tagged(chain[n - 1], pieces) ensures p.text == "" {
        assert p.text in pieces;
      }
    }
  }

  /** All text of a streamed call comes from the last profile that was tried. */
  lemma OneProfileSpeaks(chain: seq<Name>, outcomes: Name -> Outcome, k: nat)
    requires k < |chain| && forall i :: 0 <= i < k ==> Passes(true, outcomes(chain[i]))
    ensures forall p :: p in Heard(chain, outcomes, k + 1) && p.text != "" ==> p.profile == chain[k] && p.text in outcomes(chain[k]).pieces
  {
    SilentBefore(chain, outcomes, k);
    forall p | p in Tagged(chain[k], outcomes(chain[k]).pieces) ensures p.profile == chain[k] && p.text in outcomes(chain[k]).pieces {}
  }

  class ModelPool {
    const profiles: map<Name, Profile>
    const threshold: nat
    const cooldown: nat
    var health: map<Name, Health>
    ghost var history: map<Name, seq<Event>>

    constructor (profiles: map<Name, Profile>, failureThreshold: int, cooldown: nat)
      ensures this.profiles == profiles && threshold == Max(1, failureThreshold) && this.cooldown == cooldown
      ensures Valid() && history == map[]
    {
      this.profiles, threshold, this.cooldown := profiles, Max(1, failureThreshold), cooldown;
      health, history := map[], map[];
    }

    ghost function EventsOf(name: Name): seq<Event>
      reads this
    {
      EventsIn(history, name)
    }

    function HealthOf(name: Name): Health
      reads this
    {
      if name in health then health[name] else HEALTHY
    }

    /** Every record is the one its profile's history gives. */
    ghost predicate Valid()
      reads this
    {
      forall name :: HealthOf(name) == HealthAfter(threshold, cooldown, EventsOf(name), |EventsOf(name)|)
    }

    predicate Available(name: Name, now: Time)
      reads this
    {
      now >= HealthOf(name).disabledUntil
    }

    lemma EventsOn(events: seq<Event>, e: Event, n: nat)
      requires n <= |events|
      ensures HealthAfter(threshold, cooldown, events + [e], n) == HealthAfter(threshold, cooldown, events, n)
    {
      if n > 0 { EventsOn(events, e, n - 1); }
    }

    method Mark(name: Name, ghost e: Event, h: Health)
      requires Valid() && h == After(threshold, cooldown, HealthOf(name), e)
      modifies this
      ensures Valid() && health == old(health)[name := h] && history == old(history)[name := old(EventsOf(name)) + [e]]
    {
      ghost var before := EventsOf(name);
      EventsOn(before, e, |before|);
      assert HealthAfter(threshold, cooldown, before + [e], |before + [e]|) == h;
      history := history[name := before + [e]];
      health := health[name := h];
      forall other ensures HealthOf(other) == HealthAfter(threshold, cooldown, EventsOf(other), |EventsOf(other)|) {
        assert other != name ==> HealthOf(other) == old(HealthOf(other)) && EventsOf(other) == old(EventsOf(other));
      }
    }

    method MarkProfileSuccess(name: Name)
      requires Valid()
      modifies this
      ensures Valid() && health == old(health)[name := HEALTHY] && history == old(history)[name := old(EventsOf(name)) + [Success]]
    {
      Mark(name, Success, Health(0, 0));
    }

    method MarkProfileFailure(name: Name, now: Time, force: bool)
      requires Valid()
      modifies this
      ensures Valid() && history == old(history)[name := old(EventsOf(name)) + [Event.Failure(now, force)]]
      ensures health == old(health)[name := After(threshold, cooldown, old(HealthOf(name)), Event.Failure(now, force))]
    {
      var h := HealthOf(name);
      var failures, disabledUntil := h.failures + 1, h.disabledUntil;
      if force || failures >= threshold { disabledUntil := now + cooldown; }
      Mark(name, Event.Failure(now, force), Health(failures, disabledUntil));
    }

    method AddDistinct(chain: seq<Name>, ghost all: seq<Name>, name: Name) returns (r: seq<Name>)
      requires chain == Distinct(all, |all|)
      ensures r == Distinct(all + [name], |all| + 1)
    {
      DistinctOn(all, name);
      r := if name in chain then chain else chain + [name];
    }

    method AddFallbacks(chain: seq<Name>, ghost all: seq<Name>, fallbacks: seq<Name>) returns (r: Option<seq<Name>>)
      requires chain == Distinct(all, |all|)
      ensures r == if forall f :: f in fallbacks ==> f in profiles then Some(Distinct(all + fallbacks, |all + fallbacks|)) else None
    {
      var extended := chain;
      assert all + fallbacks[..0] == all;
      for j := 0 to |fallbacks|
        invariant forall k :: 0 <= k < j ==> fallbacks[k] in profiles
        invariant extended == Distinct(all + fallbacks[..j], |all| + j)
      {
        if fallbacks[j] !in profiles {
          assert fallbacks[j] in fallbacks;
          return None;
        }
        extended := AddDistinct(extended, all + fallbacks[..j], fallbacks[j]);
        assert all + fallbacks[..j + 1] == all + fallbacks[..j] + [fallbacks[j]];
      }
      assert fallbacks[..|fallbacks|] == fallbacks;
      r := Some(extended);
    }

    /** One listed profile and its fallbacks, added to the chain of those before it. */
    method AddListed(names: seq<Name>, i: nat, chain: seq<Name>) returns (r: Option<seq<Name>>)
      requires i < |names| && chain == Chain(profiles, names, i)
      ensures r == if Known(profiles, names[i]) then Some(Chain(profiles, names, i + 1)) else None
    {
      var name := names[i];
      if name !in profiles { return None; }
      ghost var all := Expanded(profiles, names, i);
      var extended := AddDistinct(chain, all, name);
      assert Expanded(profiles, names, i + 1) == all + [name] + profiles[name].fallbacks;
      r := AddFallbacks(extended, all + [name], profiles[name].fallbacks);
    }

    /** The duplicate-free chain of a route, or `None` when it names an unknown profile. */
    method RouteProfileNames(names: seq<Name>) returns (r: Option<seq<Name>>)
      ensures r == if AllKnown(profiles, names, |names|) then Some(Chain(profiles, names, |names|)) else None
    {
      var chain := [];
      for i := 0 to |names|
        invariant AllKnown(profiles, names, i) && chain == Chain(profiles, names, i)
      {
        var extended := AddListed(names, i, chain);
        if extended.None? { return None; }
        chain := extended.value;
      }
      r := Some(chain);
    }

    function AvailableIn(chain: seq<Name>, now: Time, n: nat): (r: seq<Name>)
      requires n <= |chain|
      reads this
    {
      if n == 0 then [] else AvailableIn(chain, now, n - 1) + if Available(chain[n - 1], now) then [chain[n - 1]] else []
    }

    /** The available profiles of a duplicate-free chain are a duplicate-free part of it. */
    lemma AvailableIsDistinct(chain: seq<Name>, now: Time, n: nat)
      requires n <= |chain| && NoneTwice(chain)
      ensures forall x :: x in AvailableIn(chain, now, n) <==> x in chain[..n] && Available(x, now)
      ensures NoneTwice(AvailableIn(chain, now, n))
    {
      if n > 0 {
        AvailableIsDistinct(chain, now, n - 1);
        assert chain[..n] == chain[..n - 1] + [chain[n - 1]];
      }
    }

    /** The available profiles of the chain, in order. */
    method RouteProfilesForCall(chain: seq<Name>, now: Time) returns (r: seq<Name>)
      ensures r == AvailableIn(chain, now, |chain|)
    {
      r := [];
      for i := 0 to |chain|
        invariant r == AvailableIn(chain, now, i)
      {
        if Available(chain[i], now) { r := r + [chain[i]]; }
      }
    }
  }

  function EventsIn(history: map<Name, seq<Event>>, name: Name): seq<Event> {
    if name in history then history[name] else []
  }

  /** The first `n` profiles have one more failure each, the others nothing new. */
  ghost predicate OnlyFailures(before: map<Name, seq<Event>>, now: map<Name, seq<Event>>, chain: seq<Name>, clock: nat -> Time, n: nat)
    requires n <= |chain|
  {
    && (forall x :: x !in chain[..n] ==> EventsIn(now, x) == EventsIn(before, x))
    && (forall j :: 0 <= j < n ==> EventsIn(now, chain[j]) == EventsIn(before, chain[j]) + [Event.Failure(clock(j), false)])
  }

  lemma OneMoreFailure(before: map<Name, seq<Event>>, now: map<Name, seq<Event>>, chain: seq<Name>, clock: nat -> Time, n: nat)
    requires n < |chain| && OnlyFailures(before, now, chain, clock, n)
    requires NoneTwice(chain)
    ensures OnlyFailures(before, now[chain[n] := EventsIn(now, chain[n]) + [Event.Failure(clock(n), false)]], chain, clock, n + 1)
  {
    assert chain[..n + 1] == chain[..n] + [chain[n]];
    assert chain[n] !in chain[..n];
  }

  /** The histories after the event of the profile a call ended with. */
  ghost function Closed(now: map<Name, seq<Event>>, r: CallResult, at: Time): map<Name, seq<Event>> {
    match r
    case Answered(profile, _, _) => now[profile := EventsIn(now, profile) + [Success]]
    case Raised(profile, failure) =>
      if MayFallBack(failure) then now[profile := EventsIn(now, profile) + [Event.Failure(at, false)]] else now
    case NoRoute(_) => now
  }

  class RoutedModelProvider {
    const pool: ModelPool

    constructor (pool: ModelPool)
      ensures this.pool == pool
    {
      this.pool := pool;
    }

    /** A routed call: the chain of the route, what is available of it, then the attempts. A route
        with an unknown profile raises before any attempt. */
    method Call(stream: bool, names: seq<Name>, now: Time, outcomes: Name -> Outcome, clock: nat -> Time)
      returns (r: Option<CallResult>, heard: seq<Piece>, ghost chain: seq<Name>, ghost k: nat)
      requires pool.Valid()
      modifies pool
      ensures pool.Valid() && r.Some? == AllKnown(pool.profiles, names, |names|) && k <= |chain|
      ensures r.Some? ==> chain == old(pool.AvailableIn(Chain(pool.profiles, names, |names|), now, |Chain(pool.profiles, names, |names|)|))
      ensures r.Some? ==> Ends(stream, chain, outcomes, k, r.value) && forall i :: 0 <= i < k ==> Passes(stream, outcomes(chain[i]))
      ensures r.Some? && stream ==>
        forall p :: p in heard && p.text != "" ==> r.value != NoRoute(FailedAttempts(chain, k)) && p.profile == chain[k]
      ensures r.None? ==> heard == [] && pool.history == old(pool.history)
    {
      heard, chain, k := [], [], 0;
      var known := pool.RouteProfileNames(names);
      if known.None? { return None, [], [], 0; }
      var available := pool.RouteProfilesForCall(known.value, now);
      chain := available;
      DistinctIsDistinct(Expanded(pool.profiles, names, |names|), |Expanded(pool.profiles, names, |names|)|);
      pool.AvailableIsDistinct(known.value, now, |known.value|);
      var result;
      result, heard, k := CallWithFallbacks(stream, available, outcomes, clock);
      if stream {
        if result.NoRoute? { SilentBefore(available, outcomes, k); } else { OneProfileSpeaks(available, outcomes, k); }
      }
      r := Some(result);
    }

    /** Tries the profiles of the chain until one answers. `k` profiles were passed over. */
    method CallWithFallbacks(stream: bool, chain: seq<Name>, outcomes: Name -> Outcome, clock: nat -> Time)
      returns (r: CallResult, heard: seq<Piece>, ghost k: nat)
      requires pool.Valid() && NoneTwice(chain)
      modifies pool
      ensures pool.Valid() && k <= |chain| && forall i :: 0 <= i < k ==> Passes(stream, outcomes(chain[i]))
      ensures Ends(stream, chain, outcomes, k, r)
      ensures heard == if stream then Heard(chain, outcomes, if r.NoRoute? then k else k + 1) else []
      ensures exists now :: OnlyFailures(old(pool.history), now, chain, clock, k) && pool.history == Closed(now, r, clock(k))
    {
      var attempts := [];
      heard := [];
      k := 0;
      for i := 0 to |chain|
        invariant pool.Valid() && k == i && forall j :: 0 <= j < i ==> Passes(stream, outcomes(chain[j]))
        invariant attempts == FailedAttempts(chain, i)
        invariant heard == if stream then Heard(chain, outcomes, i) else []
        invariant OnlyFailures(old(pool.history), pool.history, chain, clock, i)
      {
        var profile := chain[i];
        var outcome := outcomes(profile);
        ghost var now := pool.history;
        if stream { heard := heard + Tagged(profile, outcome.pieces); }
        if outcome.failure.None? {
          pool.MarkProfileSuccess(profile);
          r := Answered(profile, |attempts|, attempts + [Attempt(profile, true)]);
          return;
        }
        if !MayFallBack(outcome.failure.value) { return Raised(profile, outcome.failure.value), heard, k; }
        pool.MarkProfileFailure(profile, clock(i), false);
        if stream && Emits(outcome.pieces) { return Raised(profile, outcome.failure.value), heard, k; }
        OneMoreFailure(old(pool.history), now, chain, clock, i);
        attempts := attempts + [Attempt(profile, false)];
        k := k + 1;
      }
      r := NoRoute(attempts);
    }
  }

  /** How a call ends after `k` profiles were passed over: the next one answers or raises for
      good, or none is left. The attempts are the `k` failures and the success, if any. */
  predicate Ends(stream: bool, chain: seq<Name>, outcomes: Name -> Outcome, k: nat, r: CallResult)
    requires k <= |chain|
  {
    match r
    case Answered(profile, retryCount, attempts) =>
      && k < |chain| && profile == chain[k] && outcomes(profile).failure.None?
      && retryCount == k && attempts == FailedAttempts(chain, k) + [Attempt(profile, true)]
    case Raised(profile, failure) =>
      k < |chain| && profile == chain[k] && outcomes(profile).failure == Some(failure) && !Passes(stream, outcomes(profile))
    case NoRoute(attempts) => k == |chain| && attempts == FailedAttempts(chain, k)
  }
}
