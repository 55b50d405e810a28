/** The alert evaluator on one rule (core/alerts/alerts.go, core/domain/alert.go,
    core/store/queries/alerts.sql). Times are nanoseconds; values are reals, so float64
    rounding is not part of the model. */
module Alerts {
  import opened Common

  const SECOND: int := 1_000_000_000
  const HOUR: int := 3600 * SECOND
  const FLAP_EPISODES: nat := 4
  const NO_DATA_QUIET: int := 24 * HOUR

  datatype Rule = Rule(threshold: real, windowSeconds: nat)

  datatype Reading = Reading(breached: bool, clear: bool, peak: real)

  /** RearmDelay: twice the window, at least fifteen minutes. */
  function RearmDelay(windowSeconds: nat): int {
    var d := 2 * windowSeconds * SECOND;
    if d < 900 * SECOND then 900 * SECOND else d
  }

  function Max(a: real, b: real): real { if a < b then b else a }

  function PeakOf(values: seq<real>): real {
    if values == [] then 0.0 else Max(PeakOf(values[..|values| - 1]), values[|values| - 1])
  }

  /** Evaluate: no series is unknown, and a window with values on both sides of the
      threshold, or on it, is unknown as well. */
  method Evaluate(values: Option<seq<real>>, threshold: real) returns (r: Reading)
    ensures r.breached <==>
            values.Some? && values.value != [] && forall i :: 0 <= i < |values.value| ==> values.value[i] > threshold
    ensures r.clear <==>
            values.Some? && values.value != [] && forall i :: 0 <= i < |values.value| ==> values.value[i] < threshold
    ensures !(r.breached && r.clear)
    ensures values.Some? ==> r.peak == PeakOf(values.value)
    ensures r.peak >= 0.0 && (values.Some? ==> forall i :: 0 <= i < |values.value| ==> values.value[i] <= r.peak)
    ensures r.peak == 0.0 || (values.Some? && r.peak in values.value)
  {
    if values.None? || values.value == [] {
      return Reading(false, false, 0.0);
    }
    var vs := values.value;
    r := Reading(true, true, 0.0);
    for i := 0 to |vs|
      invariant r.breached <==> forall k :: 0 <= k < i ==> vs[k] > threshold
      invariant r.clear <==> forall k :: 0 <= k < i ==> vs[k] < threshold
      invariant r.peak == PeakOf(vs[..i])
      invariant r.peak >= 0.0 && (forall k :: 0 <= k < i ==> vs[k] <= r.peak) && (r.peak == 0.0 || r.peak in vs)
    {
      var v := vs[i];
      assert vs[..i + 1][..i] == vs[..i];
      if v > r.peak {
        r := r.(peak := v);
      }
      if v <= threshold {
        r := r.(breached := false);
      }
      if v >= threshold {
        r := r.(clear := false);
      }
    }
    assert vs[..|vs|] == vs;
    assert vs[0] > threshold || vs[0] <= threshold;
  }

  // --------------------------------------------------------------------- the rule's run

  datatype Mood = Fine | Firing | Flapping | NoData

  /** `blind` records that the episode was opened while the count could not be read. */
  datatype Episode = Episode(started: int, peak: real, delivered: bool, resolved: Option<int>, blind: bool)

  /** A recorded return to Fine, and how many episodes there were then. */
  datatype Resolve = Resolve(at: int, episodes: nat)

  datatype State = State(mood: Mood, since: int, rearm: Option<int>, quiet: Option<int>, episodes: seq<Episode>,
                         resolves: seq<Resolve>, clock: int)

  /** Which of the store's calls fail during the tick. */
  datatype Faults = Faults(count: bool, open: bool, close: bool, mood: bool)

  datatype Tick = Tick(now: int, reading: Reading, faults: Faults)

  function Begin(now: int): State { State(Fine, now, None, None, [], [], now) }

  /** CountAlertEpisodesSince. */
  function CountSince(es: seq<Episode>, from: int): nat {
    if es == [] then 0
    else CountSince(es[..|es| - 1], from) + if es[|es| - 1].started >= from then 1 else 0
  }

  /** GetOpenAlertEvent: the newest unresolved episode. */
  function LastOpen(es: seq<Episode>): (i: Option<nat>)
    ensures i.Some? ==> i.value < |es| && es[i.value].resolved.None?
  {
    if es == [] then None
    else if es[|es| - 1].resolved.None? then Some(|es| - 1)
    else LastOpen(es[..|es| - 1])
  }

  /** SetAlertRuleState, which may fail. */
  function SetMood(s: State, t: Tick, mood: Mood, since: int, rearm: Option<int>, quiet: Option<int>): State {
    if t.faults.mood then s else s.(mood := mood, since := since, rearm := rearm, quiet := quiet)
  }

  /** The notice that a rule has seen nothing for a day. */
  predicate NoticesNoData(s: State, now: int) {
    s.mood.NoData? && now - s.since >= NO_DATA_QUIET && (s.quiet.None? || now - s.quiet.value >= NO_DATA_QUIET)
  }

  function EnterNoData(s: State, t: Tick): State {
    if s.mood.NoData? then
      if NoticesNoData(s, t.now) then SetMood(s, t, s.mood, s.since, s.rearm, Some(t.now)) else s
    else SetMood(s, t, NoData, t.now, s.rearm, None)
  }

  predicate IsFlapping(s: State, t: Tick) {
    (if t.faults.count then 0 else CountSince(s.episodes, t.now - HOUR)) + 1 >= FLAP_EPISODES
  }

  /** The episodes of the last hour, by their places in the list. */
  ghost function Recent(es: seq<Episode>, now: int): set<int> {
    set i | 0 <= i < |es| && es[i].started >= now - 3600 * SECOND
  }

  lemma {:induction false} RecentCounted(es: seq<Episode>, now: int)
    ensures |Recent(es, now)| == CountSince(es, now - 3600 * SECOND)
  {
    if es != [] {
      var init, last := es[..|es| - 1], |es| - 1;
      RecentCounted(init, now);
      assert Recent(es, now) == Recent(init, now) + if es[last].started >= now - 3600 * SECOND then {last} else {};
    }
  }

  predicate IsHeld(s: State, now: int) { s.rearm.Some? && now < s.rearm.value }

  predicate Delivers(s: State, t: Tick) { !IsFlapping(s, t) && !IsHeld(s, t.now) }

  function Fire(s: State, t: Tick): State {
    if s.mood.Firing? then
      var i := LastOpen(s.episodes);
      if i.Some? then
        var ep := s.episodes[i.value];
        s.(episodes := s.episodes[i.value := ep.(peak := Max(ep.peak, t.reading.peak))])
      else s
    else if t.faults.open then s
    else
      var grown := s.(episodes := s.episodes + [Episode(t.now, t.reading.peak, Delivers(s, t), None, t.faults.count)]);
      SetMood(grown, t, if IsFlapping(s, t) then Flapping else Firing, t.now, s.rearm, s.quiet)
  }

  function CloseLast(s: State, t: Tick): State {
    var i := LastOpen(s.episodes);
    if i.Some? && !t.faults.close then
      s.(episodes := s.episodes[i.value := s.episodes[i.value].(resolved := Some(t.now))])
    else s
  }

  /** A flapping rule holds one state for an hour before it resolves. */
  predicate Resolves(s: State, t: Tick) {
    !s.mood.Fine? && !(s.mood.Flapping? && t.now - s.since < HOUR)
  }

  function Settle(s: State, t: Tick, rule: Rule): State {
    if !Resolves(s, t) then s
    else
      var u := SetMood(CloseLast(s, t), t, Fine, t.now, Some(t.now + RearmDelay(rule.windowSeconds)), None);
      if t.faults.mood then u else u.(resolves := s.resolves + [Resolve(t.now, |s.episodes|)])
  }

  /** The recovery notification of resolve goes out from Firing, whether or not the firing
      itself was delivered. */
  predicate AnnouncesRecovery(s: State, t: Tick) {
    t.reading.clear && !t.reading.breached && s.mood.Firing?
  }

  /** One evaluation of the rule. */
  function Step(rule: Rule, s: State, t: Tick): State {
    var u := if !t.reading.breached && !t.reading.clear then EnterNoData(s, t)
             else if t.reading.breached then Fire(s, t)
             else Settle(s, t, rule);
    u.(clock := t.now)
  }

  function Exec(rule: Rule, start: int, ticks: seq<Tick>): State {
    if ticks == [] then Begin(start)
    else Step(rule, Exec(rule, start, ticks[..|ticks| - 1]), ticks[|ticks| - 1])
  }

  // --------------------------------------------------------------- three an hour

  predicate In(ep: Episode, from: int, to: int) { ep.delivered && from <= ep.started <= to }

  /** Firings delivered in the closed span. */
  function Deliveries(es: seq<Episode>, from: int, to: int): nat {
    if es == [] then 0
    else Deliveries(es[..|es| - 1], from, to) + if In(es[|es| - 1], from, to) then 1 else 0
  }

  /** Of those, the ones for which the guard could not read its count. */
  function Blind(es: seq<Episode>, from: int, to: int): nat {
    if es == [] then 0
    else Blind(es[..|es| - 1], from, to) + if In(es[|es| - 1], from, to) && es[|es| - 1].blind then 1 else 0
  }

  /** Each delivered firing had at most two episodes in the hour before it. */
  ghost predicate Guarded(es: seq<Episode>) {
    forall i :: 0 <= i < |es| && es[i].delivered && !es[i].blind ==>
      CountSince(es[..i], es[i].started - HOUR) + 1 < FLAP_EPISODES
  }

  lemma {:induction false} DeliveriesCounted(es: seq<Episode>, from: int, to: int)
    ensures Deliveries(es, from, to) <= CountSince(es, from)
  {
    if es != [] {
      DeliveriesCounted(es[..|es| - 1], from, to);
    }
  }

  lemma {:induction false} CountAntitone(es: seq<Episode>, a: int, b: int)
    requires a <= b
    ensures CountSince(es, b) <= CountSince(es, a)
  {
    if es != [] {
      CountAntitone(es[..|es| - 1], a, b);
    }
  }

  lemma {:induction false} ThreeInAnySpan(es: seq<Episode>, from: int)
    requires Guarded(es)
    ensures Deliveries(es, from, from + HOUR) <= 3 + Blind(es, from, from + HOUR)
  {
    if es != [] {
      var init, last := es[..|es| - 1], es[|es| - 1];
      assert forall i :: 0 <= i < |init| ==> init[..i] == es[..i];
      if In(last, from, from + HOUR) && !last.blind {
        DeliveriesCounted(init, from, from + HOUR);
        CountAntitone(init, last.started - HOUR, from);
      } else {
        ThreeInAnySpan(init, from);
      }
    }
  }

  /** Two episode lists that differ in peaks and resolutions only. */
  ghost predicate SameStarts(es: seq<Episode>, fs: seq<Episode>) {
    && |es| == |fs|
    && forall i :: 0 <= i < |es| ==>
         fs[i].started == es[i].started && fs[i].delivered == es[i].delivered && fs[i].blind == es[i].blind
  }

  lemma {:induction false} SameCount(es: seq<Episode>, fs: seq<Episode>, from: int)
    requires SameStarts(es, fs)
    ensures CountSince(es, from) == CountSince(fs, from)
  {
    if es != [] {
      SameCount(es[..|es| - 1], fs[..|fs| - 1], from);
    }
  }

  lemma SameGuarded(es: seq<Episode>, fs: seq<Episode>)
    requires SameStarts(es, fs) && Guarded(es)
    ensures Guarded(fs)
  {
    forall i | 0 <= i < |fs| && fs[i].delivered && !fs[i].blind
      ensures CountSince(fs[..i], fs[i].started - HOUR) + 1 < FLAP_EPISODES
    {
      SameCount(es[..i], fs[..i], es[i].started - HOUR);
    }
  }

  /** What a tick does to the list of episodes: nothing but peaks and resolutions, or one
      new episode. */
  lemma StepEpisodes(rule: Rule, s: State, t: Tick)
    ensures var es := Step(rule, s, t).episodes;
            || SameStarts(s.episodes, es)
            || es == s.episodes + [Episode(t.now, t.reading.peak, Delivers(s, t), None, t.faults.count)]
  {
    hide CountSince;
  }

  lemma StepGuarded(rule: Rule, s: State, t: Tick)
    requires Guarded(s.episodes)
    ensures Guarded(Step(rule, s, t).episodes)
  {
    StepEpisodes(rule, s, t);
    var es := Step(rule, s, t).episodes;
    hide Step; hide CountSince; hide Guarded;
    if SameStarts(s.episodes, es) {
      SameGuarded(s.episodes, es);
    } else {
      GuardedAppend(s, t);
    }
  }

  /** A new episode is delivered only when the guard counts at most two. */
  lemma GuardedAppend(s: State, t: Tick)
    requires Guarded(s.episodes)
    ensures Guarded(s.episodes + [Episode(t.now, t.reading.peak, Delivers(s, t), None, t.faults.count)])
  {
    hide CountSince;
    var es := s.episodes + [Episode(t.now, t.reading.peak, Delivers(s, t), None, t.faults.count)];
    assert forall i :: 0 <= i < |s.episodes| ==> es[i] == s.episodes[i] && es[..i] == s.episodes[..i];
    assert es[..|s.episodes|] == s.episodes;
  }

  lemma {:induction false} RunGuarded(rule: Rule, start: int, ticks: seq<Tick>)
    ensures Guarded(Exec(rule, start, ticks).episodes)
  {
    if ticks != [] {
      RunGuarded(rule, start, ticks[..|ticks| - 1]);
      hide Guarded; hide Step;
      StepGuarded(rule, Exec(rule, start, ticks[..|ticks| - 1]), ticks[|ticks| - 1]);
    }
  }

  /** Over every run, whatever the clock does and whichever store calls fail, any closed
      hour contains at most three delivered firings plus one per firing for which the guard
      could not read its count. */
  lemma ThreeAnHour(rule: Rule, start: int, ticks: seq<Tick>, from: int)
    ensures var es := Exec(rule, start, ticks).episodes;
            Deliveries(es, from, from + HOUR) <= 3 + Blind(es, from, from + HOUR)
    ensures (forall i :: 0 <= i < |ticks| ==> !ticks[i].faults.count) ==>
              Deliveries(Exec(rule, start, ticks).episodes, from, from + HOUR) <= 3
  {
    RunGuarded(rule, start, ticks);
    ThreeInAnySpan(Exec(rule, start, ticks).episodes, from);
    if forall i :: 0 <= i < |ticks| ==> !ticks[i].faults.count {
      NeverBlind(rule, start, ticks);
      NoneBlind(Exec(rule, start, ticks).episodes, from, from + HOUR);
    }
  }

  ghost predicate NoBlind(es: seq<Episode>) {
    forall i :: 0 <= i < |es| ==> !es[i].blind
  }

  lemma {:induction false} NeverBlind(rule: Rule, start: int, ticks: seq<Tick>)
    requires forall i :: 0 <= i < |ticks| ==> !ticks[i].faults.count
    ensures NoBlind(Exec(rule, start, ticks).episodes)
  {
    if ticks != [] {
      var was, t := Exec(rule, start, ticks[..|ticks| - 1]), ticks[|ticks| - 1];
      NeverBlind(rule, start, ticks[..|ticks| - 1]);
      StepEpisodes(rule, was, t);
      hide Step; hide CountSince;
      assert !t.faults.count;
    }
  }

  lemma {:induction false} NoneBlind(es: seq<Episode>, from: int, to: int)
    requires NoBlind(es)
    ensures Blind(es, from, to) == 0
  {
    if es != [] {
      NoneBlind(es[..|es| - 1], from, to);
    }
  }

  // ------------------------------------------------------------------- the re-arm delay

  ghost predicate Forward(start: int, ticks: seq<Tick>) {
    && (forall i :: 0 <= i < |ticks| ==> start <= ticks[i].now)
    && (forall i, j :: 0 <= i < j < |ticks| ==> ticks[i].now <= ticks[j].now)
  }

  /** Every recorded resolve is in the past and holds deliveries until its delay is over. */
  ghost predicate Rearmed(rule: Rule, s: State) {
    && (forall k :: 0 <= k < |s.resolves| ==> Holding(rule, s, k))
    && (forall k, i :: 0 <= k < |s.resolves| && 0 <= i < |s.episodes| ==> Waited(rule, s, k, i))
  }

  /** Resolve k is in the past, and the re-arm time is at least its delay away from it. */
  ghost predicate Holding(rule: Rule, s: State, k: int)
    requires 0 <= k < |s.resolves|
  {
    && s.resolves[k].at <= s.clock && s.resolves[k].episodes <= |s.episodes|
    && s.rearm.Some? && s.resolves[k].at + RearmDelay(rule.windowSeconds) <= s.rearm.value
  }

  /** Episode i, if it was delivered after resolve k, waited for its delay. */
  ghost predicate Waited(rule: Rule, s: State, k: int, i: int)
    requires 0 <= k < |s.resolves| && 0 <= i < |s.episodes|
  {
    s.resolves[k].episodes <= i && s.episodes[i].delivered ==>
      s.episodes[i].started >= s.resolves[k].at + RearmDelay(rule.windowSeconds)
  }

  lemma StepRearmed(rule: Rule, s: State, t: Tick)
    requires Rearmed(rule, s) && s.clock <= t.now
    ensures Rearmed(rule, Step(rule, s, t))
  {
    StepEpisodes(rule, s, t);
    StepResolves(rule, s, t);
    var u := Step(rule, s, t);
    hide Step; hide CountSince; hide RearmDelay; hide Delivers;
    if SameStarts(s.episodes, u.episodes) {
      RearmedSame(rule, s, u);
    } else {
      DeliversFree(s, t);
      RearmedOpened(rule, s, t, u);
    }
  }

  /** Only a resolve moves the re-arm time, and it records itself. */
  lemma StepResolves(rule: Rule, s: State, t: Tick)
    ensures var u := Step(rule, s, t);
            && u.clock == t.now
            && (|u.episodes| > |s.episodes| ==> u.resolves == s.resolves && u.rearm == s.rearm)
            && ((u.resolves == s.resolves && u.rearm == s.rearm)
                || (u.resolves == s.resolves + [Resolve(t.now, |s.episodes|)]
                    && u.rearm == Some(t.now + RearmDelay(rule.windowSeconds))))
  {
    hide CountSince; hide RearmDelay;
  }

  lemma DeliversFree(s: State, t: Tick)
    ensures Delivers(s, t) ==> !IsHeld(s, t.now)
  {
  }

  lemma RearmedSame(rule: Rule, s: State, u: State)
    requires Rearmed(rule, s) && SameStarts(s.episodes, u.episodes) && s.clock <= u.clock
    requires (u.resolves == s.resolves && u.rearm == s.rearm)
             || (u.resolves == s.resolves + [Resolve(u.clock, |s.episodes|)]
                 && u.rearm == Some(u.clock + RearmDelay(rule.windowSeconds)))
    ensures Rearmed(rule, u)
  {
    hide RearmDelay;
    forall k | 0 <= k < |u.resolves| ensures Holding(rule, u, k) {
      if k < |s.resolves| {
        assert u.resolves[k] == s.resolves[k] && Holding(rule, s, k);
      }
    }
    forall k, i | 0 <= k < |u.resolves| && 0 <= i < |u.episodes| ensures Waited(rule, u, k, i) {
      if k < |s.resolves| {
        assert u.resolves[k] == s.resolves[k] && Waited(rule, s, k, i);
      }
    }
  }

  lemma RearmedOpened(rule: Rule, s: State, t: Tick, u: State)
    requires Rearmed(rule, s) && u.resolves == s.resolves && u.rearm == s.rearm && s.clock <= u.clock == t.now
    requires u.episodes == s.episodes + [Episode(t.now, t.reading.peak, Delivers(s, t), None, t.faults.count)]
    requires Delivers(s, t) ==> !IsHeld(s, t.now)
    ensures Rearmed(rule, u)
  {
    hide RearmDelay; hide Delivers;
    forall k | 0 <= k < |u.resolves| ensures Holding(rule, u, k) {
      assert Holding(rule, s, k);
    }
    forall k, i | 0 <= k < |u.resolves| && 0 <= i < |u.episodes| ensures Waited(rule, u, k, i) {
      assert Holding(rule, s, k);
      if i < |s.episodes| {
        assert u.episodes[i] == s.episodes[i] && Waited(rule, s, k, i);
      }
    }
  }

  lemma {:induction false} RunRearmed(rule: Rule, start: int, ticks: seq<Tick>)
    requires Forward(start, ticks)
    ensures Rearmed(rule, Exec(rule, start, ticks))
    ensures Exec(rule, start, ticks).clock == if ticks == [] then start else ticks[|ticks| - 1].now
  {
    if ticks != [] {
      RunRearmed(rule, start, ticks[..|ticks| - 1]);
      StepRearmed(rule, Exec(rule, start, ticks[..|ticks| - 1]), ticks[|ticks| - 1]);
      hide Rearmed;
    }
  }

  /** Under a clock that does not go back, no firing is delivered sooner after a recorded
      resolve than fifteen minutes, nor sooner than twice the window. */
  lemma NoneWhileRearming(rule: Rule, start: int, ticks: seq<Tick>, k: nat, i: nat)
    requires Forward(start, ticks)
    requires k < |Exec(rule, start, ticks).resolves| && i < |Exec(rule, start, ticks).episodes|
    requires var s := Exec(rule, start, ticks); s.resolves[k].episodes <= i && s.episodes[i].delivered
    ensures var s := Exec(rule, start, ticks);
            && s.episodes[i].started >= s.resolves[k].at + 900 * SECOND
            && s.episodes[i].started >= s.resolves[k].at + 2 * rule.windowSeconds * SECOND
  {
    RunRearmed(rule, start, ticks);
    hide Exec;
    assert Waited(rule, Exec(rule, start, ticks), k, i);
  }

  // ------------------------------------------------------------------ closing an episode

  /** The tick read a whole window strictly below the threshold. */
  predicate AllClear(t: Tick) { t.reading.clear && !t.reading.breached }

  lemma StepCloses(rule: Rule, s: State, t: Tick, i: nat)
    requires i < |Step(rule, s, t).episodes| && Step(rule, s, t).episodes[i].resolved.Some?
    ensures (i < |s.episodes| && s.episodes[i].resolved == Step(rule, s, t).episodes[i].resolved)
            || (AllClear(t) && Step(rule, s, t).episodes[i].resolved == Some(t.now))
  {
    hide CountSince; hide RearmDelay;
  }

  /** An episode is closed by an all-clear reading, at that reading's time, and by nothing
      else: no gap, mixed window, breach or failed store call ever closes one. */
  lemma {:induction false} OnlyAllClearCloses(rule: Rule, start: int, ticks: seq<Tick>, i: nat)
    requires i < |Exec(rule, start, ticks).episodes| && Exec(rule, start, ticks).episodes[i].resolved.Some?
    ensures exists k :: 0 <= k < |ticks| && AllClear(ticks[k])
                        && Exec(rule, start, ticks).episodes[i].resolved == Some(ticks[k].now)
  {
    if ticks != [] {
      hide Step;
      var init := ticks[..|ticks| - 1];
      var s, t := Exec(rule, start, init), ticks[|ticks| - 1];
      StepCloses(rule, s, t, i);
      if i < |s.episodes| && s.episodes[i].resolved == Exec(rule, start, ticks).episodes[i].resolved {
        OnlyAllClearCloses(rule, start, init, i);
        var k :| 0 <= k < |init| && AllClear(init[k]) && s.episodes[i].resolved == Some(init[k].now);
        assert ticks[k] == init[k];
      }
    }
  }

  // ---------------------------------------------------------------- recoveries announced

  /** A firing rule's latest episode was delivered unless the re-arm delay held it back. */
  ghost predicate Told(s: State) {
    s.mood.Firing? ==>
      && s.episodes != []
      && s.episodes[|s.episodes| - 1].started == s.since
      && s.episodes[|s.episodes| - 1].delivered == !IsHeld(s, s.since)
  }

  lemma StepTold(rule: Rule, s: State, t: Tick)
    requires Told(s)
    ensures Told(Step(rule, s, t))
  {
    hide CountSince; hide RearmDelay;
  }

  lemma {:induction false} RunTold(rule: Rule, start: int, ticks: seq<Tick>)
    ensures Told(Exec(rule, start, ticks))
  {
    if ticks != [] {
      RunTold(rule, start, ticks[..|ticks| - 1]);
      hide Step; hide Told;
      StepTold(rule, Exec(rule, start, ticks[..|ticks| - 1]), ticks[|ticks| - 1]);
    }
  }

  /** A recovery is announced for a firing that was announced exactly when that firing did
      not start inside the re-arm delay. */
  lemma {:induction false} RecoveryWasAnnounced(rule: Rule, start: int, ticks: seq<Tick>, t: Tick)
    requires AnnouncesRecovery(Exec(rule, start, ticks), t)
    ensures var s := Exec(rule, start, ticks);
            && s.episodes != []
            && (s.episodes[|s.episodes| - 1].delivered <==> !IsHeld(s, s.since))
  {
    RunTold(rule, start, ticks);
    hide Exec;
  }

  const NO_FAULTS := Faults(false, false, false, false)

  function Breach(now: int): Tick { Tick(now, Reading(true, false, 90.0), NO_FAULTS) }
  function Clear(now: int): Tick { Tick(now, Reading(false, true, 10.0), NO_FAULTS) }
  function Gap(now: int): Tick { Tick(now, Reading(false, false, 0.0), NO_FAULTS) }

  /** Breach, clear, breach a minute later: the second firing is held back, yet its recovery
      is announced. */
  lemma HeldFiringAnnouncesRecovery(rule: Rule)
    ensures var s := Step(rule, Step(rule, Step(rule, Begin(0), Breach(1)), Clear(2)), Breach(3));
            AnnouncesRecovery(s, Clear(4)) && !s.episodes[|s.episodes| - 1].delivered
  {
    var s1 := Step(rule, Begin(0), Breach(1));
    assert s1.mood == Firing && s1.episodes == [Episode(1, 90.0, true, None, false)];
    var s2 := Step(rule, s1, Clear(2));
    assert s2.mood == Fine && IsHeld(s2, 3) && |s2.episodes| == 1;
    assert s2.episodes[..0] == [];
    assert CountSince(s2.episodes, 3 - HOUR) <= 1;
  }

  // ------------------------------------------------- episodes left open by a rule that is fine

  /** No store call but the count fails. */
  predicate Writes(t: Tick) { !t.faults.open && !t.faults.close && !t.faults.mood }

  ghost predicate AllWrite(ticks: seq<Tick>) { forall i :: 0 <= i < |ticks| ==> Writes(ticks[i]) }

  /** A breached tick that opens an episode although one is open: resolve closes only the
      newest. */
  predicate Strands(s: State, t: Tick) {
    t.reading.breached && (s.mood.Flapping? || (s.mood.NoData? && LastOpen(s.episodes).Some?))
  }

  function Unresolved(es: seq<Episode>): nat {
    if es == [] then 0 else Unresolved(es[..|es| - 1]) + if es[|es| - 1].resolved.None? then 1 else 0
  }

  /** While a rule fires or flaps its latest episode is open. */
  ghost predicate Ongoing(s: State) {
    s.mood.Firing? || s.mood.Flapping? ==> s.episodes != [] && s.episodes[|s.episodes| - 1].resolved.None?
  }

  /** At most one episode is open, and none while the rule is fine. */
  ghost predicate Neat(s: State) {
    Unresolved(s.episodes) <= if s.mood.Fine? then 0 else 1
  }

  lemma {:induction false} LastOpenCounts(es: seq<Episode>)
    ensures LastOpen(es).Some? <==> Unresolved(es) > 0
  {
    if es != [] {
      LastOpenCounts(es[..|es| - 1]);
    }
  }

  /** Rewriting one episode changes the count only through that episode. */
  lemma {:induction false} UnresolvedAt(es: seq<Episode>, i: nat, ep: Episode)
    requires i < |es|
    ensures Unresolved(es[i := ep]) ==
            Unresolved(es) + (if ep.resolved.None? then 1 else 0) - (if es[i].resolved.None? then 1 else 0)
  {
    var fs := es[i := ep];
    if i == |es| - 1 {
      assert fs[..|fs| - 1] == es[..|es| - 1];
    } else {
      assert fs[..|fs| - 1] == es[..|es| - 1][i := ep];
      UnresolvedAt(es[..|es| - 1], i, ep);
    }
  }

  lemma UnresolvedAppend(es: seq<Episode>, ep: Episode)
    ensures Unresolved(es + [ep]) == Unresolved(es) + if ep.resolved.None? then 1 else 0
  {
    assert (es + [ep])[..|es|] == es;
  }

  /** How one tick moves the count of open episodes. */
  lemma StepUnresolved(rule: Rule, s: State, t: Tick)
    requires Writes(t) && Ongoing(s)
    ensures var u := Step(rule, s, t);
            && Ongoing(u)
            && Unresolved(u.episodes) ==
               if t.reading.breached && !s.mood.Firing? then Unresolved(s.episodes) + 1
               else if AllClear(t) && Resolves(s, t) && Unresolved(s.episodes) > 0 then Unresolved(s.episodes) - 1
               else Unresolved(s.episodes)
    ensures Step(rule, s, t).mood.Fine? <==> AllClear(t) && (s.mood.Fine? || Resolves(s, t))
  {
    hide RearmDelay; hide CountSince;
    LastOpenCounts(s.episodes);
    var i := LastOpen(s.episodes);
    if i.Some? {
      var ep := s.episodes[i.value];
      UnresolvedAt(s.episodes, i.value, ep.(peak := Max(ep.peak, t.reading.peak)));
      UnresolvedAt(s.episodes, i.value, ep.(resolved := Some(t.now)));
    }
    UnresolvedAppend(s.episodes, Episode(t.now, t.reading.peak, Delivers(s, t), None, t.faults.count));
    hide Unresolved;
  }

  /** A tick that does not strand keeps the rule neat; one that does leaves two open. */
  lemma StepNeat(rule: Rule, s: State, t: Tick)
    requires Writes(t) && Ongoing(s)
    ensures Ongoing(Step(rule, s, t))
    ensures Neat(s) && !Strands(s, t) ==> Neat(Step(rule, s, t))
    ensures Strands(s, t) ==> Unresolved(Step(rule, s, t).episodes) >= 2 && !Step(rule, s, t).mood.Fine?
    ensures Unresolved(s.episodes) >= 2 ==>
              Unresolved(Step(rule, s, t).episodes) >= if Step(rule, s, t).mood.Fine? then 1 else 2
  {
    StepUnresolved(rule, s, t);
    LastOpenCounts(s.episodes);
    hide Step; hide LastOpen;
  }

  lemma {:induction false} RunOngoing(rule: Rule, start: int, ticks: seq<Tick>)
    requires AllWrite(ticks)
    ensures Ongoing(Exec(rule, start, ticks))
  {
    if ticks != [] {
      RunOngoing(rule, start, ticks[..|ticks| - 1]);
      hide Step; hide Ongoing;
      StepNeat(rule, Exec(rule, start, ticks[..|ticks| - 1]), ticks[|ticks| - 1]);
    }
  }

  /** The state before tick k of a run. */
  function At(rule: Rule, start: int, ticks: seq<Tick>, k: nat): State
    requires k <= |ticks|
  {
    Exec(rule, start, ticks[..k])
  }

  lemma AtNext(rule: Rule, start: int, ticks: seq<Tick>, k: nat)
    requires k < |ticks| && AllWrite(ticks)
    ensures At(rule, start, ticks, k + 1) == Step(rule, At(rule, start, ticks, k), ticks[k])
    ensures Ongoing(At(rule, start, ticks, k)) && Writes(ticks[k])
  {
    assert ticks[..k + 1][..k] == ticks[..k];
    hide Step;
    RunOngoing(rule, start, ticks[..k]);
  }

  lemma {:induction false} NeatWhileNotStranding(rule: Rule, start: int, ticks: seq<Tick>, i: nat, k: nat)
    requires AllWrite(ticks) && i <= k <= |ticks| && Neat(At(rule, start, ticks, i))
    requires forall j :: i <= j < k ==> !Strands(At(rule, start, ticks, j), ticks[j])
    ensures Neat(At(rule, start, ticks, k))
  {
    hide Step; hide Neat; hide At; hide Strands; hide Ongoing; hide Writes; hide AllWrite; hide Exec; hide Unresolved;
    if i < k {
      NeatWhileNotStranding(rule, start, ticks, i, k - 1);
      AtNext(rule, start, ticks, k - 1);
      StepNeat(rule, At(rule, start, ticks, k - 1), ticks[k - 1]);
    }
  }

  lemma {:induction false} StrandedUntilFine(rule: Rule, start: int, ticks: seq<Tick>, j: nat, k: nat)
    requires AllWrite(ticks) && j < k <= |ticks| && Strands(At(rule, start, ticks, j), ticks[j])
    requires forall m :: j < m < k ==> !At(rule, start, ticks, m).mood.Fine?
    ensures var s := At(rule, start, ticks, k); Unresolved(s.episodes) >= if s.mood.Fine? then 1 else 2
  {
    hide Step; hide At; hide Strands; hide Unresolved;
    AtNext(rule, start, ticks, k - 1);
    if j < k - 1 {
      StrandedUntilFine(rule, start, ticks, j, k - 1);
    }
    StepNeat(rule, At(rule, start, ticks, k - 1), ticks[k - 1]);
  }

  /** When a rule is fine again, every episode since it was last fine with none open is
      resolved exactly when no tick in between stranded one. */
  lemma FineIsResolvedIff(rule: Rule, start: int, ticks: seq<Tick>, i: nat, k: nat)
    requires AllWrite(ticks) && i < k <= |ticks|
    requires At(rule, start, ticks, i).mood.Fine? && Unresolved(At(rule, start, ticks, i).episodes) == 0
    requires At(rule, start, ticks, k).mood.Fine? && forall m :: i < m < k ==> !At(rule, start, ticks, m).mood.Fine?
    ensures Unresolved(At(rule, start, ticks, k).episodes) == 0 <==>
            forall j :: i <= j < k ==> !Strands(At(rule, start, ticks, j), ticks[j])
  {
    hide At; hide Strands; hide Unresolved;
    if forall j :: i <= j < k ==> !Strands(At(rule, start, ticks, j), ticks[j]) {
      NeatWhileNotStranding(rule, start, ticks, i, k);
    } else {
      var j :| i <= j < k && Strands(At(rule, start, ticks, j), ticks[j]);
      StrandedUntilFine(rule, start, ticks, j, k);
    }
  }

  /** Over a whole run without a stranding tick, a rule that is fine has no open episode. */
  lemma FineHasNoneOpen(rule: Rule, start: int, ticks: seq<Tick>)
    requires AllWrite(ticks) && Exec(rule, start, ticks).mood.Fine?
    requires forall j :: 0 <= j < |ticks| ==> !Strands(At(rule, start, ticks, j), ticks[j])
    ensures forall i :: 0 <= i < |Exec(rule, start, ticks).episodes| ==>
              Exec(rule, start, ticks).episodes[i].resolved.Some?
  {
    assert ticks[..|ticks|] == ticks;
    NeatWhileNotStranding(rule, start, ticks, 0, |ticks|);
    NoneUnresolved(Exec(rule, start, ticks).episodes);
  }

  lemma {:induction false} NoneUnresolved(es: seq<Episode>)
    requires Unresolved(es) == 0
    ensures forall i :: 0 <= i < |es| ==> es[i].resolved.Some?
  {
    if es != [] {
      NoneUnresolved(es[..|es| - 1]);
    }
  }

  /** From every firing state a gap, a breach and an all-clear an hour later leave the first
      episode open. */
  lemma GapLeavesEpisodeOpen(rule: Rule, s: State, gap: int, now: int)
    requires s.mood.Firing? && Ongoing(s)
    ensures var t := Step(rule, s, Gap(gap));
            var u := Step(rule, Step(rule, t, Breach(now)), Clear(now + HOUR));
            u.mood.Fine? && Unresolved(u.episodes) >= 1 && Strands(t, Breach(now))
  {
    var t := Step(rule, s, Gap(gap));
    assert t.mood.NoData? && t.episodes == s.episodes;
    LastOpenCounts(t.episodes);
    StepNeat(rule, s, Gap(gap));
    BreachThenClear(rule, t, now);
  }

  /** A stranding breach and an all-clear an hour later. */
  lemma BreachThenClear(rule: Rule, s: State, now: int)
    requires Ongoing(s) && Strands(s, Breach(now))
    ensures var u := Step(rule, Step(rule, s, Breach(now)), Clear(now + HOUR));
            u.mood.Fine? && Unresolved(u.episodes) >= 1
  {
    var t := Step(rule, s, Breach(now));
    StepNeat(rule, s, Breach(now));
    assert (t.mood.Flapping? || t.mood.Firing?) && t.since == now by { hide Unresolved; hide CountSince; }
    StepNeat(rule, t, Clear(now + HOUR));
    StepUnresolved(rule, t, Clear(now + HOUR));
    hide Step; hide Unresolved;
  }

  /** A first breach reaches such a state. */
  lemma FiringIsReached(rule: Rule)
    ensures Step(rule, Begin(0), Breach(1)).mood.Firing? && Ongoing(Step(rule, Begin(0), Breach(1)))
  {
  }

  /** No gap is needed: from every flapping state one more breach and an all-clear an hour
      later leave an older episode open. */
  lemma FlappingLeavesEpisodeOpen(rule: Rule, s: State, now: int)
    requires s.mood.Flapping? && Ongoing(s)
    ensures var u := Step(rule, Step(rule, s, Breach(now)), Clear(now + HOUR));
            u.mood.Fine? && Unresolved(u.episodes) >= 1 && Strands(s, Breach(now))
  {
    BreachThenClear(rule, s, now);
  }

  /** The condition is about runs whose store writes succeed: if recording the state fails
      after the episode is opened, a fine rule has an open episode and no tick stranded it. */
  lemma FailedWriteLeavesEpisodeOpen(rule: Rule, s: State, now: int, peak: real)
    requires s.mood.Fine?
    ensures var t := Tick(now, Reading(true, false, peak), Faults(false, false, false, true));
            !Strands(s, t) && Step(rule, s, t).mood.Fine? && Unresolved(Step(rule, s, t).episodes) == Unresolved(s.episodes) + 1
  {
    var t := Tick(now, Reading(true, false, peak), Faults(false, false, false, true));
    UnresolvedAppend(s.episodes, Episode(now, peak, Delivers(s, t), None, false));
    hide CountSince;
  }

  ghost predicate StartedSince(es: seq<Episode>, from: int) {
    forall i :: 0 <= i < |es| ==> es[i].started >= from
  }

  lemma {:induction false} CountsAll(es: seq<Episode>, from: int)
    requires StartedSince(es, from)
    ensures CountSince(es, from) == |es|
  {
    if es != [] {
      CountsAll(es[..|es| - 1], from);
    }
  }

  /** A fine rule with fewer than three recent episodes breaches and recovers. */
  lemma CycleRun(rule: Rule, s: State, now: int) returns (u: State)
    requires s.mood.Fine? && |s.episodes| < 3 && StartedSince(s.episodes, 0) && 0 <= now < HOUR
    ensures u == Step(rule, Step(rule, s, Breach(now)), Clear(now + 1))
    ensures u.mood.Fine? && |u.episodes| == |s.episodes| + 1 && StartedSince(u.episodes, 0)
  {
    assert StartedSince(s.episodes, now - HOUR);
    CountsAll(s.episodes, now - HOUR);
    hide CountSince; hide RearmDelay;
    u := Step(rule, Step(rule, s, Breach(now)), Clear(now + 1));
  }

  lemma {:induction false} SameDeliveries(es: seq<Episode>, fs: seq<Episode>, from: int, upto: int)
    requires SameStarts(es, fs)
    ensures Deliveries(es, from, upto) == Deliveries(fs, from, upto)
  {
    if es != [] {
      SameDeliveries(es[..|es| - 1], fs[..|fs| - 1], from, upto);
    }
  }

  lemma DeliveriesAppend(es: seq<Episode>, ep: Episode, from: int, upto: int)
    ensures Deliveries(es + [ep], from, upto) == Deliveries(es, from, upto) + if In(ep, from, upto) then 1 else 0
  {
    assert (es + [ep])[..|es|] == es;
  }

  /** A fine rule that is not held delivers its next firing, if the guard allows it or could
      not look. */
  lemma FiresOnce(rule: Rule, s: State, t: Tick)
    requires s.mood.Fine? && t.reading.breached && Writes(t) && Delivers(s, t) && 0 <= t.now <= HOUR
    ensures var u := Step(rule, s, t);
            && u.mood.Firing? && Deliveries(u.episodes, 0, HOUR) == Deliveries(s.episodes, 0, HOUR) + 1
            && u.episodes == s.episodes + [Episode(t.now, t.reading.peak, true, None, t.faults.count)]
  {
    DeliveriesAppend(s.episodes, Episode(t.now, t.reading.peak, true, None, t.faults.count), 0, HOUR);
    hide Deliveries; hide CountSince;
  }

  /** Then it recovers, and is held for fifteen minutes if its window is short. */
  lemma RecoversOnce(rule: Rule, s: State, now: int)
    requires s.mood.Firing? && rule.windowSeconds <= 450
    ensures var u := Step(rule, s, Clear(now));
            && u.mood.Fine? && u.rearm == Some(now + 900 * SECOND) && SameStarts(s.episodes, u.episodes)
            && Deliveries(u.episodes, 0, HOUR) == Deliveries(s.episodes, 0, HOUR)
  {
    var u := Step(rule, s, Clear(now));
    assert SameStarts(s.episodes, u.episodes) && u.rearm == Some(now + 900 * SECOND) && u.mood.Fine?;
    SameDeliveries(s.episodes, u.episodes, 0, HOUR);
  }

  const SIXTEEN: int := 960 * SECOND

  lemma DeliveredCycle(rule: Rule, s: State, n: nat) returns (u: State)
    requires rule.windowSeconds <= 450 && n < 3 && s.mood.Fine? && |s.episodes| == n && StartedSince(s.episodes, 0)
    requires !IsHeld(s, n * SIXTEEN) && Deliveries(s.episodes, 0, HOUR) == n
    ensures u == Step(rule, Step(rule, s, Breach(n * SIXTEEN)), Clear(n * SIXTEEN + 1))
    ensures u.mood.Fine? && |u.episodes| == n + 1 && StartedSince(u.episodes, 0)
    ensures !IsHeld(u, (n + 1) * SIXTEEN) && Deliveries(u.episodes, 0, HOUR) == n + 1
  {
    var now := n * SIXTEEN;
    hide Step; hide Deliveries; hide CountSince; hide Delivers;
    FewDeliver(s, now);
    FiresOnce(rule, s, Breach(now));
    var t := Step(rule, s, Breach(now));
    RecoversOnce(rule, t, now + 1);
    u := Step(rule, t, Clear(now + 1));
    assert (n + 1) * SIXTEEN == now + SIXTEEN;
  }

  /** Fewer than three recent episodes and no hold: the next firing is delivered. */
  lemma FewDeliver(s: State, now: int)
    requires |s.episodes| < 3 && StartedSince(s.episodes, 0) && !IsHeld(s, now) && 0 <= now < HOUR
    ensures Delivers(s, Breach(now))
  {
    assert StartedSince(s.episodes, now - HOUR);
    CountsAll(s.episodes, now - HOUR);
    hide CountSince;
  }

  lemma {:induction false} DeliveredCycles(rule: Rule, n: nat) returns (s: State, ticks: seq<Tick>)
    requires rule.windowSeconds <= 450 && n <= 3
    ensures s == Exec(rule, 0, ticks) && s.mood.Fine? && |s.episodes| == n && StartedSince(s.episodes, 0)
    ensures !IsHeld(s, n * SIXTEEN) && Deliveries(s.episodes, 0, HOUR) == n
  {
    if n == 0 {
      s, ticks := Begin(0), [];
    } else {
      hide Step; hide Exec; hide Deliveries; hide IsHeld;
      var was, before := DeliveredCycles(rule, n - 1);
      s := DeliveredCycle(rule, was, n - 1);
      var a, b := Breach((n - 1) * SIXTEEN), Clear((n - 1) * SIXTEEN + 1);
      TwoTicks(rule, before, a, b);
      ticks := before + ([a] + [b]);
    }
  }

  /** The bound of three does need the count: three firings sixteen minutes apart, and a
      fourth whose count cannot be read, are all delivered within the hour. */
  lemma UnreadCountDeliversFourth(rule: Rule) returns (ticks: seq<Tick>)
    requires rule.windowSeconds <= 450
    ensures Deliveries(Exec(rule, 0, ticks).episodes, 0, HOUR) == 4
  {
    var s, before := DeliveredCycles(rule, 3);
    var last := Tick(3 * SIXTEEN, Reading(true, false, 90.0), Faults(true, false, false, false));
    assert Delivers(s, last);
    hide Deliveries; hide Exec;
    FiresOnce(rule, s, last);
    hide Step;
    OneTick(rule, before, last);
    ticks := before + [last];
  }

  lemma OneTick(rule: Rule, ticks: seq<Tick>, t: Tick)
    ensures Exec(rule, 0, ticks + [t]) == Step(rule, Exec(rule, 0, ticks), t)
  {
    assert (ticks + [t])[..|ticks|] == ticks;
  }

  lemma TwoTicks(rule: Rule, ticks: seq<Tick>, a: Tick, b: Tick)
    ensures Exec(rule, 0, ticks + ([a] + [b])) == Step(rule, Step(rule, Exec(rule, 0, ticks), a), b)
  {
    hide Step; hide Exec;
    OneTick(rule, ticks, a);
    OneTick(rule, ticks + [a], b);
    assert ticks + ([a] + [b]) == ticks + [a] + [b];
  }

  /** Three breaches and recoveries and a fourth breach within the hour reach such a state. */
  lemma FlappingIsReached(rule: Rule)
    ensures var s := Step(rule, Step(rule, Step(rule, Begin(0), Breach(1)), Clear(2)), Breach(3));
            var t := Step(rule, Step(rule, Step(rule, Step(rule, s, Clear(4)), Breach(5)), Clear(6)), Breach(7));
            t.mood.Flapping? && Ongoing(t)
  {
    var s2 := CycleRun(rule, Begin(0), 1);
    var s4 := CycleRun(rule, s2, 3);
    var s6 := CycleRun(rule, s4, 5);
    FourthBreach(rule, s6, 7);
    hide Step; hide Ongoing;
  }

  lemma FourthBreach(rule: Rule, s: State, now: int)
    requires s.mood.Fine? && |s.episodes| == 3 && StartedSince(s.episodes, 0) && 0 <= now < HOUR
    ensures Step(rule, s, Breach(now)).mood.Flapping? && Ongoing(Step(rule, s, Breach(now)))
  {
    assert StartedSince(s.episodes, now - HOUR);
    CountsAll(s.episodes, now - HOUR);
    hide CountSince;
  }

  // ------------------------------------------------------------------------ the evaluator

  /** The evaluator's hold on one rule's row and its episodes, changed call by call. */
  class Evaluator {
    const rule: Rule
    var mood: Mood
    var since: int
    var rearm: Option<int>
    var quiet: Option<int>
    var episodes: seq<Episode>
    ghost var resolves: seq<Resolve>
    ghost var clock: int

    ghost function Now(): State
      reads this
    {
      State(mood, since, rearm, quiet, episodes, resolves, clock)
    }

    constructor (rule: Rule, now: int)
      ensures this.rule == rule && Now() == Begin(now)
    {
      this.rule, mood, since, rearm, quiet, episodes, resolves, clock := rule, Fine, now, None, None, [], [], now;
    }

    method SetState(t: Tick, mood: Mood, since: int, rearm: Option<int>, quiet: Option<int>)
      modifies this`mood, this`since, this`rearm, this`quiet
      ensures Now() == SetMood(old(Now()), t, mood, since, rearm, quiet)
    {
      if !t.faults.mood {
        this.mood, this.since, this.rearm, this.quiet := mood, since, rearm, quiet;
      }
    }

    method CountEpisodes(from: int) returns (n: nat)
      ensures n == CountSince(episodes, from)
    {
      n := 0;
      for i := 0 to |episodes|
        invariant n == CountSince(episodes[..i], from)
      {
        assert episodes[..i + 1][..i] == episodes[..i];
        if episodes[i].started >= from {
          n := n + 1;
        }
      }
      assert episodes[..|episodes|] == episodes;
    }

    method NoDataTick(t: Tick) returns (noticed: bool)
      modifies this
      ensures Now() == EnterNoData(old(Now()), t)
      ensures noticed <==> NoticesNoData(old(Now()), t.now)
    {
      noticed := false;
      if mood.NoData? {
        if t.now - since >= NO_DATA_QUIET && (quiet.None? || t.now - quiet.value >= NO_DATA_QUIET) {
          noticed := true;
          SetState(t, mood, since, rearm, Some(t.now));
        }
        return;
      }
      SetState(t, NoData, t.now, rearm, None);
    }

    method FireTick(t: Tick) returns (delivered: bool)
      modifies this
      ensures Now() == Fire(old(Now()), t)
      ensures delivered <==> !old(mood).Firing? && !t.faults.open && Delivers(old(Now()), t)
      ensures !old(mood).Firing? && !t.faults.open && !t.faults.count ==>
                var few := |Recent(old(episodes), t.now)| < 3;
                && (delivered <==> few && (old(rearm).None? || t.now >= old(rearm).value))
                && (!t.faults.mood ==> mood == if few then Firing else Flapping)
    {
      delivered := false;
      RecentCounted(episodes, t.now);
      hide Recent;
      if mood.Firing? {
        var i := LastOpen(episodes);
        if i.Some? {
          var ep := episodes[i.value];
          episodes := episodes[i.value := ep.(peak := Max(ep.peak, t.reading.peak))];
        }
        return;
      }
      var n := 0;
      if !t.faults.count {
        n := CountEpisodes(t.now - HOUR);
      }
      var flapping := n + 1 >= FLAP_EPISODES;
      var held := rearm.Some? && t.now < rearm.value;
      if t.faults.open {
        return;
      }
      episodes := episodes + [Episode(t.now, t.reading.peak, !flapping && !held, None, t.faults.count)];
      SetState(t, if flapping then Flapping else Firing, t.now, rearm, quiet);
      delivered := !flapping && !held;
    }

    method ResolveTick(t: Tick) returns (announced: bool)
      modifies this
      ensures Now() == Settle(old(Now()), t, rule)
      ensures announced <==> old(mood).Firing?
    {
      hide RearmDelay;
      announced := false;
      if mood.Fine? || (mood.Flapping? && t.now - since < HOUR) {
        return;
      }
      announced := mood.Firing?;
      ghost var count := |episodes|;
      var i := LastOpen(episodes);
      if i.Some? && !t.faults.close {
        episodes := episodes[i.value := episodes[i.value].(resolved := Some(t.now))];
      }
      SetState(t, Fine, t.now, Some(t.now + RearmDelay(rule.windowSeconds)), None);
      if !t.faults.mood {
        resolves := resolves + [Resolve(t.now, count)];
      }
    }

    /** evaluate: one reading of the window and what follows from it. */
    method EvaluateRule(now: int, values: Option<seq<real>>, faults: Faults) returns (ghost t: Tick)
      modifies this
      ensures t.now == now && t.faults == faults
      ensures t.reading.breached <==>
              values.Some? && values.value != [] && forall i :: 0 <= i < |values.value| ==> values.value[i] > rule.threshold
      ensures t.reading.clear <==>
              values.Some? && values.value != [] && forall i :: 0 <= i < |values.value| ==> values.value[i] < rule.threshold
      ensures Now() == Step(rule, old(Now()), t)
    {
      hide RearmDelay; hide CountSince; hide LastOpen;
      var reading := Evaluate(values, rule.threshold);
      var tick := Tick(now, reading, faults);
      t := tick;
      if !reading.breached && !reading.clear {
        var _ := NoDataTick(tick);
      } else if reading.breached {
        var _ := FireTick(tick);
      } else {
        var _ := ResolveTick(tick);
      }
      clock := now;
    }
  }
}
