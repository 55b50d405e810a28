/** What a rule does at its next reading, said on the readings so far: when a firing is sent,
    when a flapping rule settles, what peak an episode has and when a silent rule is news
    (core/alerts/alerts.go). */
module AlertRuns {
  import opened Common
  import opened Alerts

  /** Tick k brought the rule back to fine. */
  ghost predicate Returns(rule: Rule, start: int, ticks: seq<Tick>, k: int) {
    && 0 <= k < |ticks|
    && !Exec(rule, start, ticks[..k]).mood.Fine? && Exec(rule, start, ticks[..k + 1]).mood.Fine?
  }

  lemma ReturnsBefore(rule: Rule, start: int, ticks: seq<Tick>, k: int)
    requires ticks != [] && 0 <= k < |ticks| - 1
    ensures Returns(rule, start, ticks, k) <==> Returns(rule, start, ticks[..|ticks| - 1], k)
  {
    assert ticks[..|ticks| - 1][..k] == ticks[..k] && ticks[..|ticks| - 1][..k + 1] == ticks[..k + 1];
  }

  lemma ReturnsLast(rule: Rule, start: int, ticks: seq<Tick>)
    requires ticks != []
    ensures var s := Exec(rule, start, ticks[..|ticks| - 1]);
            Returns(rule, start, ticks, |ticks| - 1) <==>
            !s.mood.Fine? && Step(rule, s, ticks[|ticks| - 1]).mood.Fine?
  {
    assert ticks[..|ticks|] == ticks;
    hide Step;
  }

  // --------------------------------------------------------------------------- the hold

  /** The hold counts from the latest return to fine. */
  ghost predicate HeldFrom(rule: Rule, start: int, ticks: seq<Tick>, rearm: Option<int>) {
    && (rearm.None? ==> forall k :: !Returns(rule, start, ticks, k))
    && (rearm.Some? ==>
          exists k :: Returns(rule, start, ticks, k) && rearm.value == ticks[k].now + RearmDelay(rule.windowSeconds)
                      && forall j :: Returns(rule, start, ticks, j) ==> j <= k)
  }

  /** A tick moves the hold exactly when it brings the rule back to fine. */
  lemma StepHold(rule: Rule, s: State, t: Tick)
    ensures Step(rule, s, t).rearm ==
            if !s.mood.Fine? && Step(rule, s, t).mood.Fine? then Some(t.now + RearmDelay(rule.windowSeconds)) else s.rearm
  {
    hide CountSince; hide RearmDelay; hide LastOpen;
  }

  lemma {:induction false} RunHold(rule: Rule, start: int, ticks: seq<Tick>)
    ensures HeldFrom(rule, start, ticks, Exec(rule, start, ticks).rearm)
  {
    if ticks != [] {
      var init, n := ticks[..|ticks| - 1], |ticks| - 1;
      var s := Exec(rule, start, init);
      RunHold(rule, start, init);
      StepHold(rule, s, ticks[n]);
      ReturnsLast(rule, start, ticks);
      hide Step; hide RearmDelay;
      assert Exec(rule, start, ticks) == Step(rule, s, ticks[n]);
      hide Exec;
      forall k | 0 <= k < n ensures Returns(rule, start, ticks, k) <==> Returns(rule, start, init, k) {
        ReturnsBefore(rule, start, ticks, k);
      }
      hide Returns;
      HoldGrows(rule, start, ticks);
    }
  }

  lemma HoldGrows(rule: Rule, start: int, ticks: seq<Tick>)
    requires ticks != []
    requires HeldFrom(rule, start, ticks[..|ticks| - 1], Exec(rule, start, ticks[..|ticks| - 1]).rearm)
    requires forall k :: 0 <= k < |ticks| - 1 ==>
               (Returns(rule, start, ticks, k) <==> Returns(rule, start, ticks[..|ticks| - 1], k))
    requires Exec(rule, start, ticks).rearm ==
             if Returns(rule, start, ticks, |ticks| - 1) then Some(ticks[|ticks| - 1].now + RearmDelay(rule.windowSeconds))
             else Exec(rule, start, ticks[..|ticks| - 1]).rearm
    ensures HeldFrom(rule, start, ticks, Exec(rule, start, ticks).rearm)
  {
    hide RearmDelay; hide Exec; hide Returns;
    var init, n := ticks[..|ticks| - 1], |ticks| - 1;
    var was := Exec(rule, start, init).rearm;
    InRange(rule, start, ticks);
    InRange(rule, start, init);
    if Returns(rule, start, ticks, n) {
      assert forall j :: Returns(rule, start, ticks, j) ==> j <= n;
    } else if was.Some? {
      var k :| Returns(rule, start, init, k) && was.value == init[k].now + RearmDelay(rule.windowSeconds)
               && forall j :: Returns(rule, start, init, j) ==> j <= k;
      assert Returns(rule, start, ticks, k) && ticks[k] == init[k];
    }
  }

  /** Every return to fine is at least fifteen minutes and twice the window ago. */
  ghost predicate Rested(rule: Rule, start: int, ticks: seq<Tick>, now: int) {
    forall k :: Returns(rule, start, ticks, k) ==>
      now - ticks[k].now >= 900 * SECOND && now - ticks[k].now >= 2 * rule.windowSeconds * SECOND
  }

  /** The hold is over exactly then. */
  lemma HeldIff(rule: Rule, start: int, ticks: seq<Tick>, now: int)
    requires Forward(start, ticks)
    ensures IsHeld(Exec(rule, start, ticks), now) <==> !Rested(rule, start, ticks, now)
  {
    RunHold(rule, start, ticks);
    var rearm := Exec(rule, start, ticks).rearm;
    hide Exec; hide Returns;
    InRange(rule, start, ticks);
    if rearm.Some? {
      var k :| Returns(rule, start, ticks, k) && rearm.value == ticks[k].now + RearmDelay(rule.windowSeconds)
               && forall j :: Returns(rule, start, ticks, j) ==> j <= k;
      forall j | Returns(rule, start, ticks, j) ensures ticks[j].now <= ticks[k].now {
        assert j <= k;
      }
    }
  }

  lemma InRange(rule: Rule, start: int, ticks: seq<Tick>)
    ensures forall k :: Returns(rule, start, ticks, k) ==> 0 <= k < |ticks|
  {
  }

  /** A breach outside firing opens an episode. */
  lemma BreachOpens(rule: Rule, s: State, t: Tick)
    requires t.reading.breached && !t.faults.count && Writes(t) && !s.mood.Firing?
    ensures var u, few := Step(rule, s, t), |Recent(s.episodes, t.now)| < 3;
            && u.episodes == s.episodes + [Episode(t.now, t.reading.peak, few && !IsHeld(s, t.now), None, false)]
            && u.mood == if few then Firing else Flapping
  {
    RecentCounted(s.episodes, t.now);
    hide Recent; hide CountSince; hide LastOpen; hide RearmDelay;
  }

  /** For every run and every breach outside firing whose count is read and whose writes
      succeed: an episode opens; it is sent exactly when fewer than three episodes began
      within the last hour and every return to fine is at least fifteen minutes and twice the
      window ago; and the rule flaps exactly when three or more did. */
  lemma SentIff(rule: Rule, start: int, ticks: seq<Tick>, t: Tick)
    requires Forward(start, ticks) && t.reading.breached && !t.faults.count && Writes(t)
    requires !Exec(rule, start, ticks).mood.Firing?
    ensures var s, u := Exec(rule, start, ticks), Exec(rule, start, ticks + [t]);
            var few := |Recent(s.episodes, t.now)| < 3;
            && |u.episodes| == |s.episodes| + 1 && u.episodes[..|s.episodes|] == s.episodes
            && u.episodes[|s.episodes|].started == t.now && u.episodes[|s.episodes|].resolved.None?
            && (u.episodes[|s.episodes|].delivered <==> few && Rested(rule, start, ticks, t.now))
            && u.mood == if few then Firing else Flapping
  {
    var s := Exec(rule, start, ticks);
    HeldIff(rule, start, ticks, t.now);
    BreachOpens(rule, s, t);
    assert (ticks + [t])[..|ticks|] == ticks;
    hide Step;
    assert Exec(rule, start, ticks + [t]) == Step(rule, s, t);
    hide Exec; hide Recent; hide Rested; hide IsHeld; hide Writes; hide Forward;
  }

  // --------------------------------------------------------------- one settled state an hour

  /** Tick k is the last breach so far. */
  ghost predicate LastBreach(ticks: seq<Tick>, k: int) {
    0 <= k < |ticks| && ticks[k].reading.breached && forall j :: k < j < |ticks| ==> !ticks[j].reading.breached
  }

  ghost predicate SinceBreach(ticks: seq<Tick>, s: State) {
    s.mood.Flapping? ==> exists k :: LastBreach(ticks, k) && s.since == ticks[k].now
  }

  lemma StepFlapping(rule: Rule, s: State, t: Tick)
    requires Writes(t)
    ensures var u := Step(rule, s, t);
            u.mood.Flapping? ==>
              if t.reading.breached then u.since == t.now else s.mood.Flapping? && u.since == s.since
  {
    hide CountSince; hide RearmDelay; hide LastOpen;
  }

  lemma {:induction false} RunFlapping(rule: Rule, start: int, ticks: seq<Tick>)
    requires AllWrite(ticks)
    ensures SinceBreach(ticks, Exec(rule, start, ticks))
  {
    if ticks != [] {
      var init, n := ticks[..|ticks| - 1], |ticks| - 1;
      var s, u := Exec(rule, start, init), Exec(rule, start, ticks);
      RunFlapping(rule, start, init);
      StepFlapping(rule, s, ticks[n]);
      hide Step;
      if u.mood.Flapping? {
        if ticks[n].reading.breached {
          assert LastBreach(ticks, n);
        } else {
          var k :| LastBreach(init, k) && s.since == init[k].now;
          assert LastBreach(ticks, k);
        }
      }
    }
  }

  /** A flapping rule settles at an all-clear exactly when its last breach is an hour old, and
      otherwise stays as it is. */
  lemma SettlesIff(rule: Rule, start: int, ticks: seq<Tick>, t: Tick)
    requires AllWrite(ticks) && Writes(t) && AllClear(t) && Exec(rule, start, ticks).mood.Flapping?
    ensures exists k :: LastBreach(ticks, k)
              && var s, u := Exec(rule, start, ticks), Exec(rule, start, ticks + [t]);
                 if t.now - ticks[k].now >= 3600 * SECOND then u.mood.Fine? else u == s.(clock := t.now)
  {
    RunFlapping(rule, start, ticks);
    var s := Exec(rule, start, ticks);
    var k :| LastBreach(ticks, k) && s.since == ticks[k].now;
    assert (ticks + [t])[..|ticks|] == ticks;
    hide RearmDelay; hide LastOpen; hide CountSince;
    assert Exec(rule, start, ticks + [t]) == Step(rule, s, t);
  }

  // ------------------------------------------------------------------- one firing's readings

  /** The rule has fired since tick k: every reading from there on was a breach, the last
      episode began there and is open, and its peak is the largest of their peaks. */
  ghost predicate FiringSince(ticks: seq<Tick>, s: State, k: int) {
    && 0 <= k < |ticks| && s.episodes != []
    && (forall j :: k <= j < |ticks| ==> ticks[j].reading.breached)
    && var ep := s.episodes[|s.episodes| - 1];
       && ep.started == ticks[k].now && ep.resolved.None?
       && (forall j :: k <= j < |ticks| ==> ticks[j].reading.peak <= ep.peak)
       && (exists j :: k <= j < |ticks| && ticks[j].reading.peak == ep.peak)
  }

  lemma StepFiring(rule: Rule, s: State, t: Tick)
    requires Writes(t) && Step(rule, s, t).mood.Firing?
    requires s.mood.Firing? ==> s.episodes != [] && s.episodes[|s.episodes| - 1].resolved.None?
    ensures t.reading.breached
    ensures var u := Step(rule, s, t);
            && u.episodes != []
            && var ep := u.episodes[|u.episodes| - 1];
               && ep.resolved.None?
               && if s.mood.Firing? then
                    var was := s.episodes[|s.episodes| - 1];
                    ep.started == was.started && ep.peak == if was.peak < t.reading.peak then t.reading.peak else was.peak
                  else ep.started == t.now && ep.peak == t.reading.peak
  {
    hide CountSince; hide RearmDelay;
  }

  /** While a rule fires, all readings since the episode began were breaches, and the
      episode's peak is the largest of them. */
  lemma {:induction false} PeakOfFiring(rule: Rule, start: int, ticks: seq<Tick>)
    requires AllWrite(ticks)
    ensures Exec(rule, start, ticks).mood.Firing? ==> exists k :: FiringSince(ticks, Exec(rule, start, ticks), k)
  {
    if ticks != [] && Exec(rule, start, ticks).mood.Firing? {
      var init, n := ticks[..|ticks| - 1], |ticks| - 1;
      var s, u := Exec(rule, start, init), Exec(rule, start, ticks);
      PeakOfFiring(rule, start, init);
      hide Step;
      if s.mood.Firing? {
        var k :| FiringSince(init, s, k);
        StepFiring(rule, s, ticks[n]);
        SpellGrows(ticks, s, u, k);
      } else {
        StepFiring(rule, s, ticks[n]);
        assert FiringSince(ticks, u, n);
      }
    }
  }

  lemma SpellGrows(ticks: seq<Tick>, s: State, u: State, k: int)
    requires ticks != [] && FiringSince(ticks[..|ticks| - 1], s, k) && ticks[|ticks| - 1].reading.breached
    requires u.episodes != []
             && var ep, was := u.episodes[|u.episodes| - 1], s.episodes[|s.episodes| - 1];
                && ep.resolved.None? && ep.started == was.started
                && ep.peak == Max(was.peak, ticks[|ticks| - 1].reading.peak)
    ensures FiringSince(ticks, u, k)
  {
    var init, n := ticks[..|ticks| - 1], |ticks| - 1;
    var ep, was := u.episodes[|u.episodes| - 1], s.episodes[|s.episodes| - 1];
    var j :| k <= j < |init| && init[j].reading.peak == was.peak;
    assert ticks[j] == init[j];
    assert ticks[if ep.peak == was.peak then j else n].reading.peak == ep.peak;
    forall i | k <= i < |ticks| ensures ticks[i].reading.breached && ticks[i].reading.peak <= ep.peak {
      if i < n {
        assert ticks[i] == init[i];
      }
    }
  }

  // -------------------------------------------------------------------------- what closes

  /** No later episode than i is open. */
  ghost predicate NewestOpen(es: seq<Episode>, i: int) {
    0 <= i < |es| && es[i].resolved.None? && forall j :: i < j < |es| ==> es[j].resolved.Some?
  }

  lemma {:induction false} LastOpenIff(es: seq<Episode>, i: nat)
    ensures LastOpen(es) == Some(i) <==> NewestOpen(es, i)
  {
    if es != [] && es[|es| - 1].resolved.Some? {
      LastOpenIff(es[..|es| - 1], i);
    }
  }

  /** A rule that fires or sees no data is fine at the first all-clear: its newest open
      episode is closed then, and every other episode stays as it was. */
  lemma RecoveryCloses(rule: Rule, start: int, ticks: seq<Tick>, t: Tick)
    requires Writes(t) && AllClear(t)
    requires Exec(rule, start, ticks).mood.Firing? || Exec(rule, start, ticks).mood.NoData?
    ensures var s, u := Exec(rule, start, ticks), Exec(rule, start, ticks + [t]);
            && u.mood.Fine? && |u.episodes| == |s.episodes|
            && forall j :: 0 <= j < |s.episodes| ==>
                 u.episodes[j] == if NewestOpen(s.episodes, j) then s.episodes[j].(resolved := Some(t.now)) else s.episodes[j]
  {
    var s := Exec(rule, start, ticks);
    assert (ticks + [t])[..|ticks|] == ticks;
    hide RearmDelay; hide LastOpen; hide CountSince; hide NewestOpen;
    assert Exec(rule, start, ticks + [t]) == Step(rule, s, t);
    forall j | 0 <= j < |s.episodes| ensures LastOpen(s.episodes) == Some(j) <==> NewestOpen(s.episodes, j) {
      LastOpenIff(s.episodes, j);
    }
  }

  // ------------------------------------------------------------------------- a silent rule

  predicate Unknown(t: Tick) { !t.reading.breached && !t.reading.clear }

  /** The readings from k on are all unknown, and the one before was not, or there is none. */
  ghost predicate SilentFrom(ticks: seq<Tick>, k: int) {
    && 0 <= k < |ticks| && (forall j :: k <= j < |ticks| ==> Unknown(ticks[j]))
    && (k > 0 ==> !Unknown(ticks[k - 1]))
  }

  /** Tick j gave notice of the silence. */
  ghost predicate Notice(rule: Rule, start: int, ticks: seq<Tick>, j: int) {
    0 <= j < |ticks| && Unknown(ticks[j]) && NoticesNoData(Exec(rule, start, ticks[..j]), ticks[j].now)
  }

  /** No notice since tick k, or the latest at `quiet`. */
  ghost predicate Noticed(rule: Rule, start: int, ticks: seq<Tick>, k: int, quiet: Option<int>) {
    && (quiet.None? ==> forall j :: k <= j ==> !Notice(rule, start, ticks, j))
    && (quiet.Some? ==>
          exists j :: k <= j && Notice(rule, start, ticks, j) && quiet.value == ticks[j].now
                      && forall i :: Notice(rule, start, ticks, i) ==> i <= j)
  }

  lemma StepSilent(rule: Rule, s: State, t: Tick)
    requires Writes(t)
    ensures var u := Step(rule, s, t);
            if Unknown(t) then
              && u.mood.NoData?
              && u.since == (if s.mood.NoData? then s.since else t.now)
              && u.quiet == (if NoticesNoData(s, t.now) then Some(t.now) else if s.mood.NoData? then s.quiet else None)
            else !u.mood.NoData?
  {
    hide CountSince; hide RearmDelay; hide LastOpen;
  }

  lemma NoticeBefore(rule: Rule, start: int, ticks: seq<Tick>)
    requires ticks != []
    ensures forall j {:trigger Notice(rule, start, ticks, j)} :: j < |ticks| - 1 ==>
              (Notice(rule, start, ticks, j) <==> Notice(rule, start, ticks[..|ticks| - 1], j))
    ensures Notice(rule, start, ticks, |ticks| - 1) <==>
            Unknown(ticks[|ticks| - 1])
            && NoticesNoData(Exec(rule, start, ticks[..|ticks| - 1]), ticks[|ticks| - 1].now)
    ensures forall j :: Notice(rule, start, ticks, j) ==> 0 <= j < |ticks|
  {
    hide Exec; hide NoticesNoData;
    forall j | j < |ticks| - 1
      ensures Notice(rule, start, ticks, j) <==> Notice(rule, start, ticks[..|ticks| - 1], j)
    {
      if j >= 0 {
        assert ticks[..|ticks| - 1][..j] == ticks[..j];
      }
    }
  }

  lemma NoticeRange(rule: Rule, start: int, ticks: seq<Tick>)
    ensures forall j :: Notice(rule, start, ticks, j) ==> 0 <= j < |ticks|
  {
  }

  /** The state after a silence is no data since its first reading. */
  lemma {:induction false} RunSilent(rule: Rule, start: int, ticks: seq<Tick>, k: int)
    requires AllWrite(ticks) && SilentFrom(ticks, k)
    ensures var s := Exec(rule, start, ticks);
            s.mood.NoData? && s.since == ticks[k].now && Noticed(rule, start, ticks, k, s.quiet)
    decreases |ticks|
  {
    var init, n := ticks[..|ticks| - 1], |ticks| - 1;
    var s := Exec(rule, start, init);
    NoticeBefore(rule, start, ticks);
    assert Writes(ticks[n]) && Unknown(ticks[n]);
    StepSilent(rule, s, ticks[n]);
    hide Step; hide Notice;
    if k == n {
      NotSilent(rule, start, init);
      assert !s.mood.NoData?;
    } else {
      assert SilentFrom(init, k);
      RunSilent(rule, start, init, k);
      NoticedGrows(rule, start, init, ticks, k, s.quiet, Exec(rule, start, ticks).quiet);
    }
  }

  lemma NotSilent(rule: Rule, start: int, ticks: seq<Tick>)
    requires AllWrite(ticks) && (ticks != [] ==> !Unknown(ticks[|ticks| - 1]))
    ensures !Exec(rule, start, ticks).mood.NoData?
  {
    if ticks != [] {
      StepSilent(rule, Exec(rule, start, ticks[..|ticks| - 1]), ticks[|ticks| - 1]);
      hide Step;
    }
  }

  lemma NoticedGrows(rule: Rule, start: int, init: seq<Tick>, ticks: seq<Tick>, k: int, was: Option<int>,
                     quiet: Option<int>)
    requires |ticks| == |init| + 1 && ticks[..|init|] == init && k < |init| && Noticed(rule, start, init, k, was)
    requires forall j {:trigger Notice(rule, start, ticks, j)} {:trigger Notice(rule, start, init, j)} :: j < |init| ==>
               (Notice(rule, start, ticks, j) <==> Notice(rule, start, init, j))
    requires quiet == if Notice(rule, start, ticks, |init|) then Some(ticks[|init|].now) else was
    ensures Noticed(rule, start, ticks, k, quiet)
  {
    NoticeRange(rule, start, init);
    NoticeRange(rule, start, ticks);
    hide Notice;
    if Notice(rule, start, ticks, |init|) {
      assert forall i :: Notice(rule, start, ticks, i) ==> i <= |init|;
    } else if was.Some? {
      var j :| k <= j && Notice(rule, start, init, j) && was.value == init[j].now
               && forall i :: Notice(rule, start, init, i) ==> i <= j;
      assert Notice(rule, start, ticks, j) && ticks[j] == init[j];
    }
  }

  /** A further unknown reading gives notice exactly when the silence is a day old and no
      notice of it is younger than a day. */
  lemma NoticeIff(rule: Rule, start: int, ticks: seq<Tick>, k: int, t: Tick)
    requires Forward(start, ticks) && AllWrite(ticks) && SilentFrom(ticks, k)
    ensures NoticesNoData(Exec(rule, start, ticks), t.now) <==>
            && t.now - ticks[k].now >= 86400 * SECOND
            && forall j :: k <= j && Notice(rule, start, ticks, j) ==> t.now - ticks[j].now >= 86400 * SECOND
  {
    RunSilent(rule, start, ticks, k);
    var s := Exec(rule, start, ticks);
    NoticeRange(rule, start, ticks);
    hide Exec; hide Notice; hide SilentFrom; hide AllWrite; hide Forward;
    if s.quiet.Some? {
      var j :| k <= j && Notice(rule, start, ticks, j) && s.quiet.value == ticks[j].now
               && forall i :: Notice(rule, start, ticks, i) ==> i <= j;
      forall i | k <= i && Notice(rule, start, ticks, i) ensures ticks[i].now <= ticks[j].now {
        InOrder(start, ticks, i, j);
      }
    }
  }

  lemma InOrder(start: int, ticks: seq<Tick>, i: int, j: int)
    requires Forward(start, ticks) && 0 <= i <= j < |ticks|
    ensures ticks[i].now <= ticks[j].now
  {
  }
}
