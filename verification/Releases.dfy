/** Which releases an agent moves between, over the whole self-update protocol: the guard of
    Apply (agent/updater/updater.go), the build stamps of the images, and every crash,
    restart and rollback of `SelfUpdate`. The running version is the stamp of the running
    image, not the tag it was installed for, and a rollback restores what the slot holds. */
module Releases {
  import opened Common
  import opened Text
  import opened SelfUpdate
  import V = Versions

  /** The running build takes up a version only through the guard, and no rollback flag is
      ever set. */
  ghost predicate Guarded(env: Env) {
    forall running, want :: env.permits(running, want) <==> V.Gate(running, want)
  }

  /** A marker is down or a rollback is under way: the binary is not confirmed. */
  predicate Unsettled(s: State) { s.disk.marker.Some? || s.roll != NoRoll }

  /** The image last confirmed, or the one whose process wrote the marker. */
  function Settled(s: State): Image {
    if Unsettled(s) then s.hist.before else s.disk.Content(Binary)
  }

  function Stamp(env: Env, s: State): string { env.stamp(s.disk.Content(Binary)) }

  /** The version an update under way is for. */
  function Target(s: State): Option<string> {
    if s.upd.NoUpd? || s.upd.Swapped? then None else Some(s.upd.v)
  }

  predicate PastMark(s: State) { s.upd.Marked? || s.upd.Emptied? || s.upd.Copying? || s.upd.Kept? }

  /** The binary is a release that is not lower than the settled one, and an update under
      way is for a version that is not lower than the running one. */
  ghost predicate Level(env: Env, s: State) {
    && V.NotAfter(Stamp(env, s), Stamp(env, s))
    && (Unsettled(s) ==> V.NotAfter(env.stamp(s.hist.before), Stamp(env, s)))
    && (Target(s).Some? ==> V.NotAfter(env.stamp(s.running), Target(s).value))
    && (PastMark(s) ==> s.disk.marker.Some? && s.hist.before == s.running)
    && (s.upd.Swapped? || (s.armed && !s.dialed) ==> s.disk.marker.Some?)
  }

  /** The step installs the staged image. */
  predicate Installs(s: State, e: Event) {
    s.up && s.booted && e.SwapRename? && s.upd.Kept? && Staged in s.disk.dir
  }

  /** The step puts the slot back. */
  predicate Restores(s: State, e: Event) {
    s.up && s.booted && e == RollRename(true) && s.roll.RollStaged? && Staged in s.disk.dir
  }

  /** The installed image is stamped with the tag it was installed for, or a later release. */
  ghost predicate Honest(env: Env, s: State, e: Event) {
    Installs(s, e) ==> V.NotAfter(s.upd.v, env.stamp(s.disk.Content(Staged)))
  }

  /** The slot was refilled after the marker, or held the marker's image already. */
  predicate Refilled(s: State, e: Event) {
    Restores(s, e) ==> s.hist.relinked || s.hist.slotAtMark == Some(s.hist.before)
  }

  // ---------------------------------------------------------------- one step at a time

  /** The step keeps the level, and settles on nothing lower. */
  ghost predicate Climbs(env: Env, s: State, t: State) {
    Level(env, t) && V.NotAfter(env.stamp(Settled(s)), env.stamp(Settled(t)))
  }

  lemma Reflexive(env: Env, s: State)
    requires Level(env, s)
    ensures V.NotAfter(env.stamp(Settled(s)), env.stamp(Settled(s)))
    ensures V.NotAfter(env.stamp(Settled(s)), Stamp(env, s))
    ensures Target(s).Some? ==> V.NotAfter(env.stamp(s.running), env.stamp(s.running))
  {
    hide V.NotAfter;
    if Unsettled(s) {
      V.NotAfterEnds(env.stamp(s.hist.before), Stamp(env, s));
    }
    if Target(s).Some? {
      V.NotAfterEnds(env.stamp(s.running), Target(s).value);
    }
  }

  lemma ProcessClimbs(env: Env, first: Image, s: State, e: Event)
    requires e.Start? || e.Crash? || e.Recover? || e.DialHome? || e.ProbationExpires?
    requires Sound(env, first, s) && Level(env, s)
    ensures Climbs(env, s, Step(env, s, e))
  {
    hide V.NotAfter; hide Good; hide UpdSound; hide SlotSound; hide RollSound;
    Reflexive(env, s);
  }

  /** A rollback restores the image that wrote the marker exactly when its slot is right. */
  lemma RestoredImage(env: Env, first: Image, s: State, e: Event)
    requires Sound(env, first, s) && Restores(s, e)
    ensures RollStep(s, e).disk.Content(Binary) == s.disk.Content(Previous)
    ensures if s.hist.relinked then s.disk.Content(Previous) == s.hist.before
            else s.hist.slotAtMark == Some(s.disk.Content(Previous))
  {
    InstallStaged(s.disk);
  }

  lemma RollClimbs(env: Env, first: Image, s: State, e: Event)
    requires Sound(env, first, s) && Level(env, s) && s.up && s.booted && Refilled(s, e)
    requires Sound(env, first, RollStep(s, e))
    ensures Climbs(env, s, RollStep(s, e))
  {
    hide V.NotAfter; hide Good;
    Reflexive(env, s);
    if Restores(s, e) {
      RestoredImage(env, first, s, e);
    }
    hide UpdSound; hide SlotSound; hide RollSound; hide FilesSound;
  }

  /** What the staged image of an update past its pre-flight becomes. */
  lemma InstalledImage(env: Env, first: Image, s: State, e: Event)
    requires Sound(env, first, s) && Installs(s, e)
    ensures UpdStep(env, s, e).disk.Content(Binary) == s.disk.Content(Staged)
  {
    InstallStaged(s.disk);
  }

  lemma OpenClimbs(env: Env, first: Image, s: State, e: Event)
    requires Guarded(env) && e.UpdOpen?
    requires Sound(env, first, s) && Level(env, s) && s.up && s.booted && Sound(env, first, UpdStep(env, s, e))
    ensures Climbs(env, s, UpdStep(env, s, e))
  {
    hide V.NotAfter; hide Good; hide SlotSound; hide RollSound; hide FilesSound; hide UpdSound; hide V.Gate; hide V.AgentParse;
    Reflexive(env, s);
    var t := UpdStep(env, s, e);
    assert t == s || (t.running == s.running && t.up && t.roll == s.roll && t.disk.marker == s.disk.marker
                      && t.hist.before == s.hist.before && t.upd.Downloading? && t.armed == s.armed && t.dialed == s.dialed);
    hide UpdStep;
    if s.upd.NoUpd? && s.dialed && env.permits(env.stamp(s.running), e.v) {
      V.NotAfterParses(Stamp(env, s), Stamp(env, s));
      V.GateForward(env.stamp(s.running), e.v);
    }
  }

  lemma InstallClimbs(env: Env, first: Image, s: State, e: Event)
    requires e.SwapRename? && Honest(env, s, e)
    requires Sound(env, first, s) && Level(env, s) && s.up && s.booted
    ensures Climbs(env, s, UpdStep(env, s, e))
  {
    hide V.NotAfter; hide Good;
    Reflexive(env, s);
    if Installs(s, e) {
      InstalledImage(env, first, s, e);
      var stamp := env.stamp(s.disk.Content(Staged));
      V.NotAfterTransitive(env.stamp(s.running), s.upd.v, stamp);
      V.NotAfterEnds(s.upd.v, stamp);
    }
    hide UpdSound; hide SlotSound; hide RollSound; hide FilesSound;
  }

  lemma UpdClimbs(env: Env, first: Image, s: State, e: Event)
    requires !e.UpdOpen? && !e.SwapRename?
    requires Sound(env, first, s) && Level(env, s) && s.up && s.booted && Sound(env, first, UpdStep(env, s, e))
    ensures Climbs(env, s, UpdStep(env, s, e))
  {
    hide V.NotAfter; hide Good; hide UpdSound; hide SlotSound; hide RollSound; hide FilesSound;
    Reflexive(env, s);
    var t := UpdStep(env, s, e);
    UpdFrame(env, s, e);
    hide UpdStep;
    if t != s {
      assert t.disk.Content(Binary) == s.disk.Content(Binary);
    }
  }

  /** What the steps of an update that neither begin it nor install leave alone. */
  ghost predicate Framed(s: State, t: State) {
    || t == s
    || (&& t.running == s.running && t.up == s.up && t.roll == s.roll && t.dialed == s.dialed && t.armed == s.armed
        && Target(s).Some? && !t.upd.Swapped?
        && (Target(t).Some? ==> Target(t) == Target(s))
        && (Remarked(s, t) || Unmarked(s, t)))
  }

  predicate Remarked(s: State, t: State) {
    t.disk.marker.Some? && t.hist.before == s.running && s.upd.Preflighted? && t.upd.Marked?
  }

  predicate Unmarked(s: State, t: State) {
    && t.hist.before == s.hist.before
    && (PastMark(t) ==> PastMark(s))
    && (t.disk.marker == s.disk.marker || (t.upd.NoUpd? && t.disk.marker.None? && PastMark(s)))
  }

  lemma VetFrame(env: Env, s: State, e: Event)
    requires e.UpdVerify? || e.UpdPreflight?
    ensures Framed(s, UpdStep(env, s, e))
  {
    var t := UpdStep(env, s, e);
    if t != s {
      assert s.upd.Downloading? || s.upd.Verified?;
      assert t == Abandon(s, false, true) || t == s.(upd := Verified(s.upd.v)) || t == s.(upd := Preflighted(s.upd.v));
      hide UpdStep;
    }
  }

  lemma StageFrame(env: Env, s: State, e: Event)
    requires e.UpdWrite? || e.UpdMark?
    ensures Framed(s, UpdStep(env, s, e))
  {
  }

  lemma SwapFrame(env: Env, s: State, e: Event)
    requires !(e.UpdWrite? || e.UpdVerify? || e.UpdPreflight? || e.UpdMark? || e.UpdOpen? || e.SwapRename?)
    ensures Framed(s, UpdStep(env, s, e))
  {
  }

  lemma UpdFrame(env: Env, s: State, e: Event)
    requires !e.UpdOpen? && !e.SwapRename?
    ensures Framed(s, UpdStep(env, s, e))
  {
    hide UpdStep; hide Framed;
    if e.UpdVerify? || e.UpdPreflight? {
      VetFrame(env, s, e);
    } else if e.UpdWrite? || e.UpdMark? {
      StageFrame(env, s, e);
    } else {
      SwapFrame(env, s, e);
    }
  }

  lemma StepClimbs(env: Env, first: Image, s: State, e: Event)
    requires Guarded(env) && Sound(env, first, s) && Level(env, s) && Regular(s) && Regular(Step(env, s, e))
    requires Honest(env, s, e) && Refilled(s, e)
    ensures Climbs(env, s, Step(env, s, e))
  {
    StepSound(env, first, s, e);
    hide Sound; hide Level; hide Honest; hide Refilled; hide Guarded; hide RollStep; hide UpdStep; hide V.NotAfter; hide Regular;
    if e.Start? || e.Crash? || e.Recover? || e.DialHome? || e.ProbationExpires? {
      ProcessClimbs(env, first, s, e);
    } else if s.up && s.booted {
      if e.RollOpen? || e.RollWrite? || e.RollFinish? || e.RollRename? || e.RollClear? || e.RollFail? {
        RollClimbs(env, first, s, e);
      } else if e.UpdOpen? {
        OpenClimbs(env, first, s, e);
      } else if e.SwapRename? {
        InstallClimbs(env, first, s, e);
      } else {
        UpdClimbs(env, first, s, e);
      }
    } else {
      Reflexive(env, s);
    }
  }

  // ------------------------------------------------------------------------- whole runs

  /** Every installed image is stamped no lower than its tag, and every rollback finds its
      slot right. */
  ghost predicate Clean(env: Env, first: Image, events: seq<Event>) {
    forall i :: 0 <= i < |events| ==>
      var s := Exec(env, Init(first), events[..i]);
      Honest(env, s, events[i]) && Refilled(s, events[i])
  }

  lemma CleanPrefix(env: Env, first: Image, events: seq<Event>)
    requires events != [] && Clean(env, first, events)
    ensures var init := events[..|events| - 1];
            && Clean(env, first, init)
            && Honest(env, Exec(env, Init(first), init), events[|events| - 1])
            && Refilled(Exec(env, Init(first), init), events[|events| - 1])
  {
    hide Exec; hide Honest; hide Refilled;
    var init := events[..|events| - 1];
    forall i | 0 <= i < |init|
      ensures var s := Exec(env, Init(first), init[..i]); Honest(env, s, init[i]) && Refilled(s, init[i])
    {
      assert init[..i] == events[..i] && init[i] == events[i];
    }
  }

  lemma InitLevel(env: Env, first: Image)
    requires V.AgentParse(env.stamp(first)).Some?
    ensures Level(env, Init(first)) && Regular(Init(first))
  {
    V.NotAfterSelf(env.stamp(first));
  }

  lemma {:induction false} RegularPrefix(env: Env, first: Image, events: seq<Event>, i: nat)
    requires i <= |events| && Regular(Exec(env, Init(first), events))
    ensures Regular(Exec(env, Init(first), events[..i]))
  {
    if i == |events| {
      assert events[..i] == events;
    } else {
      var init := events[..|events| - 1];
      if !Regular(Exec(env, Init(first), init)) {
        hide Step; hide Regular;
        IrregularStays(env, Exec(env, Init(first), init), events[|events| - 1]);
      } else {
        RegularPrefix(env, first, init, i);
        assert init[..i] == events[..i];
      }
    }
  }

  lemma {:induction false} RunLevel(env: Env, first: Image, events: seq<Event>)
    requires Guarded(env) && V.AgentParse(env.stamp(first)).Some? && Clean(env, first, events)
    requires Regular(Exec(env, Init(first), events))
    ensures Level(env, Exec(env, Init(first), events))
  {
    hide Step; hide Level; hide Guarded; hide Clean; hide Sound;
    if events == [] {
      InitLevel(env, first);
    } else {
      var init := events[..|events| - 1];
      RegularPrefix(env, first, events, |events| - 1);
      CleanPrefix(env, first, events);
      RunLevel(env, first, init);
      RunSound(env, first, init);
      hide Regular; hide Honest; hide Refilled; hide Climbs;
      StepClimbs(env, first, Exec(env, Init(first), init), events[|events| - 1]);
      ClimbsLevel(env, Exec(env, Init(first), init), Exec(env, Init(first), events));
    }
  }

  lemma ClimbsLevel(env: Env, s: State, t: State)
    requires Climbs(env, s, t)
    ensures Level(env, t)
  {
  }

  /** Over every run of updates, crashes, restarts and rollbacks without the rollback flag,
      in which every rollback finds its slot refilled after its marker and every installed
      image is stamped no lower than its tag, an agent on a release settles only on releases
      that are not lower than any it settled on before, and never has a lower one at its
      binary path. */
  lemma {:induction false} NeverLower(env: Env, first: Image, events: seq<Event>, i: nat)
    requires Guarded(env) && V.AgentParse(env.stamp(first)).Some? && Clean(env, first, events) && i <= |events|
    requires Regular(Exec(env, Init(first), events))
    ensures var past, now := Exec(env, Init(first), events[..i]), Exec(env, Init(first), events);
            && V.NotAfter(env.stamp(Settled(past)), env.stamp(Settled(now)))
            && V.NotAfter(env.stamp(Settled(past)), Stamp(env, now))
  {
    hide Step; hide Level; hide Guarded; hide Clean; hide Sound; hide V.NotAfter; hide Settled; hide Stamp;
    var now := Exec(env, Init(first), events);
    RunLevel(env, first, events);
    Reflexive(env, now);
    if i == |events| {
      assert events[..i] == events;
    } else {
      var init := events[..|events| - 1];
      var was := Exec(env, Init(first), init);
      assert init[..i] == events[..i];
      RegularPrefix(env, first, events, |events| - 1);
      CleanPrefix(env, first, events);
      NeverLower(env, first, init, i);
      RunLevel(env, first, init);
      RunSound(env, first, init);
      hide Regular; hide Honest; hide Refilled;
      StepClimbs(env, first, was, events[|events| - 1]);
      var x := env.stamp(Settled(Exec(env, Init(first), events[..i])));
      V.NotAfterTransitive(x, env.stamp(Settled(was)), env.stamp(Settled(now)));
      V.NotAfterTransitive(x, env.stamp(Settled(now)), Stamp(env, now));
    }
  }

  // --------------------------------------------------- exactly when a step goes lower

  predicate Lower(x: string, y: string) {
    V.AgentParse(x).Some? && V.AgentParse(y).Some? && V.Before(V.AgentParse(x).value, V.AgentParse(y).value)
  }

  lemma NotAfterNotLower(x: string, y: string)
    requires V.NotAfter(x, y)
    ensures !Lower(y, x)
  {
  }

  /** From a level state, one step leaves something at the binary path that is not known to
      be at least the settled release exactly when it installs an image whose stamp is lower
      than the running one or does not parse, or restores a slot that was not refilled after
      the marker and held such an image. */
  lemma LowersIff(env: Env, first: Image, s: State, e: Event)
    requires Sound(env, first, s) && Level(env, s) && Regular(s) && Regular(Step(env, s, e))
    ensures !V.NotAfter(env.stamp(Settled(s)), Stamp(env, Step(env, s, e))) <==>
            || (Installs(s, e) && Drops(env, s.running, s.disk.Content(Staged)))
            || (Restores(s, e) && !s.hist.relinked && s.hist.slotAtMark.Some?
                && Drops(env, s.hist.before, s.hist.slotAtMark.value))
  {
    hide V.NotAfter; hide Lower; hide Good; hide V.Before; hide V.AgentParse;
    Reflexive(env, s);
    if Installs(s, e) {
      InstalledImage(env, first, s, e);
      DropsIs(env, s.running, s.disk.Content(Staged));
    } else if Restores(s, e) {
      RestoredImage(env, first, s, e);
      DropsIs(env, s.hist.before, s.disk.Content(Previous));
    } else {
      OtherwiseSame(env, first, s, e);
    }
  }

  /** The image `c` is stamped lower than `from`, or with no version at all. */
  predicate Drops(env: Env, from: Image, c: Image) {
    V.AgentParse(env.stamp(c)).None? || Lower(env.stamp(c), env.stamp(from))
  }

  lemma DropsIs(env: Env, from: Image, c: Image)
    ensures V.NotAfter(env.stamp(from), env.stamp(from)) ==> (Drops(env, from, c) <==> !V.NotAfter(env.stamp(from), env.stamp(c)))
  {
  }

  /** Only an install and a restore change what is at the binary path. */
  lemma OtherwiseSame(env: Env, first: Image, s: State, e: Event)
    requires Sound(env, first, s) && Regular(s) && Regular(Step(env, s, e)) && !Installs(s, e) && !Restores(s, e)
    ensures Step(env, s, e).disk.Content(Binary) == s.disk.Content(Binary)
  {
    StepSound(env, first, s, e);
    hide Good; hide UpdSound; hide SlotSound; hide RollSound; hide FilesSound;
    if s.up && s.booted && !(e.Start? || e.Crash? || e.Recover? || e.DialHome? || e.ProbationExpires?) {
      if e.RollOpen? || e.RollWrite? || e.RollFinish? || e.RollRename? || e.RollClear? || e.RollFail? {
        RollKeepsBinary(env, s, e);
      } else {
        UpdKeepsBinary(env, s, e);
      }
    }
  }

  lemma RollKeepsBinary(env: Env, s: State, e: Event)
    requires s.up && s.booted && !Restores(s, e)
    requires s.up && !s.upd.Swapped? && !s.roll.RollRenamed? && !s.roll.RollCleared? ==> s.running == s.disk.Content(Binary)
    requires s.roll == NoRoll || s.upd == NoUpd
    requires var t := RollStep(s, e);
             t.up && !t.upd.Swapped? && !t.roll.RollRenamed? && !t.roll.RollCleared? ==> t.running == t.disk.Content(Binary)
    ensures RollStep(s, e).disk.Content(Binary) == s.disk.Content(Binary)
  {
  }

  lemma UpdKeepsBinary(env: Env, s: State, e: Event)
    requires s.up && s.booted && !Installs(s, e)
    requires s.up && !s.upd.Swapped? && !s.roll.RollRenamed? && !s.roll.RollCleared? ==> s.running == s.disk.Content(Binary)
    requires s.roll == NoRoll || s.upd == NoUpd
    requires var t := UpdStep(env, s, e);
             && (t.roll == NoRoll || t.upd == NoUpd)
             && (t.up && !t.upd.Swapped? && !t.roll.RollRenamed? && !t.roll.RollCleared? ==> t.running == t.disk.Content(Binary))
    ensures UpdStep(env, s, e).disk.Content(Binary) == s.disk.Content(Binary)
  {
    if e.UpdOpen? {
      var t := UpdStep(env, s, e);
      assert t == s || (t.upd.Downloading? && t.running == s.running && t.up && t.roll == s.roll && s.upd.NoUpd?);
    } else if e.SwapRename? {
      assert UpdStep(env, s, e) == s;
    } else {
      UpdFrame(env, s, e);
    }
    hide UpdStep;
  }

  /** A tag and a stamp: every release that may take up the tag is followed by one that is
      not lower exactly when the stamp is a version and not below the tag. */
  lemma StampBoundIsExact(tag: string, stamp: string)
    requires V.ValidTag(tag)
    ensures (forall running :: V.AgentParse(running).Some? && V.Gate(running, tag) ==> V.NotAfter(running, stamp))
            <==> V.NotAfter(tag, stamp)
  {
    hide V.AgentParse;
    if V.NotAfter(tag, stamp) {
      forall running | V.AgentParse(running).Some? && V.Gate(running, tag) ensures V.NotAfter(running, stamp) {
        V.GateForward(running, tag);
        V.NotAfterTransitive(running, tag, stamp);
      }
    } else {
      var twin := Twin(tag);
      assert !V.NotAfter(twin, stamp);
    }
  }

  /** The same release written with or without its "v". */
  lemma Twin(tag: string) returns (twin: string)
    requires V.ValidTag(tag)
    ensures V.AgentParse(twin).Some? && V.AgentParse(twin) == V.AgentParse(tag) && V.Gate(twin, tag)
  {
    var t :| V.Shaped(t) && V.TextOf(t) == tag;
    var u := t.(v := !t.v);
    twin := V.TextOf(u);
    V.ParsersAgreeOnTags(t);
    V.ParsersAgreeOnTags(u);
    assert V.Meaning(t) == V.Meaning(u);
    V.BeforeTotal(V.Meaning(t), V.Meaning(t));
    assert |twin| != |tag|;
    hide V.AgentParse;
  }

  // ----------------------------------------------------------------- both conditions bite

  /** What `version` prints, and what the pre-flight looks for in it. */
  function Banner(stamp: string): string { Trim("cypher-agent " + stamp) }

  ghost predicate Contains(text: string, part: string) {
    exists a, b :: text == a + part + b
  }

  ghost predicate Speaks(env: Env) {
    forall c, v :: env.reports(c, v) <==> Contains(Banner(env.stamp(c)), v)
  }

  lemma BannerHolds(tag: string, rest: string)
    requires rest != "" && !IsSpace(rest[|rest| - 1])
    ensures Contains(Banner(tag + rest), tag)
  {
    var text := "cypher-agent " + (tag + rest);
    assert text[|text| - 1] == rest[|rest| - 1];
    TrimKeeps(text);
    hide Trim;
    assert text == "cypher-agent " + tag + rest;
  }

  lemma SuffixText(t: V.Tag, p: string)
    requires t.pre.None?
    ensures V.TextOf(t.(pre := Some(p))) == V.TextOf(t) + ("-" + p)
  {
  }

  lemma LastSolid(t: V.Tag, p: string)
    requires V.Shaped(t.(pre := Some(p)))
    ensures p != "" && !IsSpace(("-" + p)[|p|])
  {
    assert V.PreChar(p[|p| - 1]);
  }

  lemma PreBefore(t: V.Tag, p: string)
    requires V.Shaped(t) && t.pre.None? && V.Shaped(t.(pre := Some(p)))
    ensures Lower(V.TextOf(t.(pre := Some(p))), V.TextOf(t))
  {
    V.ParsersAgreeOnTags(t);
    V.ParsersAgreeOnTags(t.(pre := Some(p)));
    hide V.AgentParse; hide V.Val;
  }

  /** The pre-flight for a release accepts every pre-release of it. */
  lemma PreReleasePasses(t: V.Tag, p: string)
    requires V.Shaped(t) && t.pre.None? && V.Shaped(t.(pre := Some(p)))
    ensures Contains(Banner(V.TextOf(t.(pre := Some(p)))), V.TextOf(t))
    ensures Lower(V.TextOf(t.(pre := Some(p))), V.TextOf(t))
  {
    PreBefore(t, p);
    SuffixText(t, p);
    LastSolid(t, p);
    hide Contains; hide Lower; hide V.TextOf; hide V.Shaped; hide IsSpace; hide Banner;
    BannerHolds(V.TextOf(t), "-" + p);
  }

  /** An agent on one pre-release of a version may take the version up and be given another,
      lower pre-release of it. */
  lemma PreReleaseForRelease(t: V.Tag, p: string, q: string)
    requires V.Shaped(t) && t.pre.None? && V.Shaped(t.(pre := Some(p))) && V.Shaped(t.(pre := Some(q)))
    requires V.TextLess(p, q) && |V.TextOf(t)| <= 48
    ensures V.Gate(V.TextOf(t.(pre := Some(q))), V.TextOf(t))
    ensures Contains(Banner(V.TextOf(t.(pre := Some(p)))), V.TextOf(t))
    ensures Lower(V.TextOf(t.(pre := Some(p))), V.TextOf(t.(pre := Some(q))))
  {
    PreReleasePasses(t, p);
    PreBefore(t, q);
    SuffixText(t, q);
    PreOrder(t, p, q);
    assert V.ValidTag(V.TextOf(t));
    hide Contains; hide V.TextOf; hide V.Shaped; hide V.AgentParse; hide V.Before; hide V.ValidTag;
    var y, tag := V.AgentParse(V.TextOf(t.(pre := Some(q)))).value, V.AgentParse(V.TextOf(t)).value;
    V.BeforeTotal(y, tag);
    assert |V.TextOf(t.(pre := Some(q)))| > |V.TextOf(t)|;
    assert V.TextOf(t) != "" by { NotEmpty(t); }
  }

  lemma NotEmpty(t: V.Tag)
    ensures V.TextOf(t) != ""
  {
  }

  lemma PreOrder(t: V.Tag, p: string, q: string)
    requires V.Shaped(t.(pre := Some(p))) && V.Shaped(t.(pre := Some(q))) && V.TextLess(p, q)
    ensures Lower(V.TextOf(t.(pre := Some(p))), V.TextOf(t.(pre := Some(q))))
  {
    V.ParsersAgreeOnTags(t.(pre := Some(p)));
    V.ParsersAgreeOnTags(t.(pre := Some(q)));
    V.TextIrreflexive(p);
    hide V.AgentParse; hide V.Val; hide V.TextLess;
  }

  /** A first update, up to the exit after its swap. */
  lemma SwappedRun(env: Env, a: Image, v: string, b: Image) returns (t: State)
    requires Vetted(env, b, v) && env.permits(env.stamp(a), v)
    ensures Reaches(env, Init(a), t) && Regular(t) && Settled(t) == a && t.disk.Content(Binary) == b
  {
    hide Reaches; hide Step; hide Vetted;
    var s1 := ConfirmRun(env, Init(a));
    var s2 := StageRun(env, s1, v, b);
    t := SwapRun(env, s2);
    assert t.disk.dir == map[Binary := 1, Previous := 0];
    ReachesTrans(env, Init(a), s1, s2);
    ReachesTrans(env, Init(a), s2, t);
  }

  /** A dishonest stamp: whatever the images, an artifact listed for the tag and stamped
      lower than the running build is installed by a regular run. */
  lemma StampRunsLower(env: Env, a: Image, v: string, b: Image) returns (t: State)
    requires Speaks(env) && env.permits(env.stamp(a), v) && env.digest(b) == env.listed(v)
    requires Contains(Banner(env.stamp(b)), v) && Lower(env.stamp(b), env.stamp(a))
    ensures Reaches(env, Init(a), t) && Regular(t) && Settled(t) == a && Lower(Stamp(env, t), env.stamp(Settled(t)))
  {
    assert Vetted(env, b, v);
    hide Contains; hide Lower; hide Speaks; hide Vetted; hide Banner;
    t := SwappedRun(env, a, v, b);
  }

  /** A build whose stamp is no version takes up every release tag. */
  lemma UnreadableTakesAny(running: string, want: string)
    requires V.AgentParse(running).None? && V.ValidTag(want)
    ensures V.Gate(running, want)
  {
    V.ValidTagParses(want);
    var t :| V.Shaped(t) && V.TextOf(t) == want;
    NotEmpty(t);
    hide V.AgentParse;
  }

  /** The pre-flight for a release accepts a stamp that extends it to no version at all. */
  lemma UnreadablePasses(t: V.Tag)
    requires V.Shaped(t) && t.pre.None?
    ensures Contains(Banner(V.TextOf(t) + "+x"), V.TextOf(t)) && V.AgentParse(V.TextOf(t) + "+x").None?
  {
    BannerHolds(V.TextOf(t), "+x");
    V.PlusUnread(t);
  }

  /** An unreadable stamp: a release `b` that the agent cannot read is confirmed, and then
      any older release is taken up. */
  lemma UnreadableRunsLower(env: Env, a: Image, v1: string, b: Image, v2: string, c: Image) returns (t: State)
    requires Guarded(env) && Vetted(env, b, v1) && Vetted(env, c, v2) && env.permits(env.stamp(a), v1)
    requires V.AgentParse(env.stamp(b)).None? && V.ValidTag(v2) && Lower(env.stamp(c), env.stamp(a))
    ensures Reaches(env, Init(a), t) && Regular(t) && Settled(t) == b && Lower(Stamp(env, t), env.stamp(a))
  {
    UnreadableTakesAny(env.stamp(b), v2);
    hide Vetted; hide Lower; hide V.AgentParse; hide Guarded;
    assert env.permits(env.stamp(b), v2) by { GuardedGate(env, env.stamp(b), v2); }
    var s4 := FirstUpdateRun(env, a, v1, b);
    t := SecondSwapRun(env, s4, v2, c);
    ReachesTrans(env, Init(a), s4, t);
  }

  lemma GuardedGate(env: Env, running: string, want: string)
    requires Guarded(env) && V.Gate(running, want)
    ensures env.permits(running, want)
  {
  }

  lemma SecondSwapRun(env: Env, s: State, v: string, c: Image) returns (t: State)
    requires Vetted(env, c, v) && env.permits(env.stamp(s.running), v) && Regular(s)
    requires s.up && s.booted && s.dialed && s.roll.NoRoll? && s.upd.NoUpd?
    requires s.disk.dir == map[Binary := 1, Previous := 0] && s.disk.next == 2
    ensures Reaches(env, s, t) && Regular(t) && Settled(t) == s.running && t.disk.Content(Binary) == c
  {
    hide Reaches; hide Step; hide Vetted;
    var s2 := StageRun(env, s, v, c);
    t := SwapRun(env, s2);
    assert t.disk.dir == map[Binary := 2, Previous := 1];
    ReachesTrans(env, s, s2, t);
  }

  /** A stale slot: a crash after the marker lets the rollback restore the release before
      the settled one. */
  lemma StaleSlotRunsLower(env: Env, a: Image, v1: string, b: Image, v2: string, c: Image) returns (t: State)
    requires Vetted(env, b, v1) && Vetted(env, c, v2)
    requires env.permits(env.stamp(a), v1) && env.permits(env.stamp(b), v2) && Lower(env.stamp(a), env.stamp(b))
    ensures Reaches(env, Init(a), t) && Regular(t) && Settled(t) == b && Lower(Stamp(env, t), env.stamp(Settled(t)))
  {
    t := StaleSlotRollsBackTooFar(env, a, v1, b, v2, c);
  }
}
