/** The agent's self-update protocol (agent/updater) as a step machine over a small
    file system.

    Directory entries name inodes, so a hard link really shares content and a
    truncating open really reaches every name of the inode. The process may die
    between any two file operations: every prefix of an event list is itself an
    event list, so a lemma over all event lists is a lemma over all crash points. */
module SelfUpdate {
  import opened Common

  /** The bytes of an executable file. */
  type Image = seq<nat>

  type Version = string

  /** The three names beside the running binary: the binary itself, `.new` and `.prev`. */
  datatype Name = Binary | Staged | Previous

  /** The boot marker; it is written to a temporary file and renamed, hence atomically. */
  datatype Marker = Marker(target: Version, previous: Version, attempts: nat)

  const MAX_ATTEMPTS: nat := 1

  datatype Disk = Disk(dir: map<Name, nat>, data: map<nat, Image>, next: nat, marker: Option<Marker>) {

    function Content(n: Name): Image {
      if n in dir && dir[n] in data then data[dir[n]] else []
    }

    function Bytes(inode: nat): Image {
      if inode in data then data[inode] else []
    }

    function Unlink(n: Name): Disk {
      this.(dir := dir - {n})
    }

    /** os.Link: both names now reach one inode. */
    function Link(from: Name, to: Name): Disk {
      if from in dir then this.(dir := dir[to := dir[from]]) else this
    }

    /** os.Rename: atomic, replaces whatever `to` named. */
    function Rename(from: Name, to: Name): Disk {
      if from in dir then this.(dir := (dir - {from})[to := dir[from]]) else this
    }

    /** The inode an open with O_CREATE|O_TRUNC hands back. */
    function Handle(n: Name): nat {
      if n in dir then dir[n] else next
    }

    /** open with O_CREATE|O_TRUNC: an existing inode is emptied for all of its names. */
    function Open(n: Name): Disk {
      if n in dir then this.(data := data[dir[n] := []])
      else this.(dir := dir[n := next], data := data[next := []], next := next + 1)
    }

    function Write(inode: nat, bytes: Image): Disk {
      this.(data := data[inode := bytes])
    }

    function Mark(m: Option<Marker>): Disk {
      this.(marker := m)
    }
  }

  /** What the agent cannot compute for itself: SHA-256, the digest the signed
      manifest lists for a version, what an image prints when run as a pre-flight, the
      build stamp of an image, and whether the build with one stamp takes up a wanted
      version at all. */
  datatype Env = Env(digest: Image -> nat, listed: Version -> nat,
                     reports: (Image, Version) -> bool, stamp: Image -> Version,
                     permits: (Version, Version) -> bool)

  /** An image that is the first one installed, or one whose digest is the listed one
      and which passed its pre-flight, for one and the same version. */
  ghost predicate Good(env: Env, first: Image, c: Image) {
    c == first || exists v :: env.digest(c) == env.listed(v) && env.reports(c, v)
  }

  /** Where a rollback stands. */
  datatype Roll =
    | NoRoll
    | RollWanted
    | RollCopying(src: nat, fd: nat)
    | RollStaged
    | RollRenamed
    | RollCleared

  /** Where an update stands. */
  datatype Upd =
    | NoUpd
    | Downloading(v: Version, fd: nat, streamed: Image)
    | Verified(v: Version)
    | Preflighted(v: Version)
    | Marked(v: Version)
    | Emptied(v: Version)
    | Copying(v: Version, src: nat, fd: nat)
    | Kept(v: Version)
    | Swapped(v: Version)

  /** What a run has done so far, for the statements only: the image whose process
      wrote the marker, the slot as it was then, whether the slot has been refilled
      since, how many starts recorded an attempt since, whether the slot is what a cut
      copy left behind, and whether the run ever rolled back from such a slot or let an
      update start during a rollback. */
  datatype History = History(before: Image, slotAtMark: Option<Image>, relinked: bool, passes: nat,
                             slotTorn: bool, tore: bool, overlapped: bool)

  datatype State = State(disk: Disk, up: bool, booted: bool, running: Image, dialed: bool, armed: bool,
                         roll: Roll, upd: Upd, hist: History)

  datatype Event =
    | Start
    | Crash
    | Recover(readable: bool, recorded: bool)
    | DialHome(cleared: bool)
    | ProbationExpires
    | RollOpen
    | RollWrite(n: nat)
    | RollFinish
    | RollRename(ok: bool)
    | RollClear(ok: bool)
    | RollFail
    | UpdOpen(v: Version)
    | UpdWrite(chunk: Image)
    | UpdVerify
    | UpdPreflight
    | UpdMark
    | SwapRemove
    | SwapLink
    | SwapCopyOpen
    | SwapCopyWrite(n: nat)
    | SwapCopyFinish
    | SwapRename
    | UpdFail(cleared: bool, removed: bool)

  /** A host on which `first` was just installed by hand: no slots, no marker, no process. */
  function Init(first: Image): State {
    State(Disk(map[Binary := 0], map[0 := first], 1, None), false, false, first, false, false, NoRoll, NoUpd,
          History(first, None, false, 0, false, false, false))
  }

  function Take(c: Image, n: nat): Image {
    if n <= |c| then c[..n] else c
  }

  /** Recover, the first thing a process does about updates. */
  function RecoverStep(s: State, readable: bool, recorded: bool): State {
    var s1 := s.(booted := true);
    if !readable || s.disk.marker.None? then s1
    else
      var m := s.disk.marker.value;
      if m.attempts >= MAX_ATTEMPTS then s1.(roll := RollWanted)
      else if recorded then
        s1.(armed := true, disk := s.disk.Mark(Some(m.(attempts := m.attempts + 1))),
            hist := s.hist.(passes := s.hist.passes + 1))
      else s1.(armed := true)
  }

  function RollStep(s: State, e: Event): State {
    match (e, s.roll)
    case (RollOpen, RollWanted) =>
      if Previous !in s.disk.dir then s.(roll := NoRoll)
      else s.(disk := s.disk.Open(Staged), roll := RollCopying(s.disk.dir[Previous], s.disk.Handle(Staged)),
              hist := s.hist.(tore := s.hist.tore || s.hist.slotTorn))
    case (RollWrite(n), RollCopying(src, fd)) => s.(disk := s.disk.Write(fd, Take(s.disk.Bytes(src), n)))
    case (RollFinish, RollCopying(src, fd)) => s.(disk := s.disk.Write(fd, s.disk.Bytes(src)), roll := RollStaged)
    case (RollRename(ok), RollStaged) =>
      if ok && Staged in s.disk.dir then s.(disk := s.disk.Rename(Staged, Binary), roll := RollRenamed)
      else s.(roll := NoRoll)
    case (RollClear(ok), RollRenamed) =>
      s.(disk := if ok then s.disk.Mark(None) else s.disk, roll := RollCleared)
    case (RollFail, _) =>
      if s.roll.RollWanted? || s.roll.RollCopying? || s.roll.RollStaged? then s.(roll := NoRoll) else s
    case _ => s
  }

  /** A copy into the slot that does not finish leaves a torn slot. */
  function CutCopy(s: State): History {
    s.hist.(slotTorn := s.hist.slotTorn || s.upd.Copying?)
  }

  /** A failed update leaves `.new` behind only if its removal failed too, and takes
      its marker back unless that failed. */
  function Abandon(s: State, cleared: bool, removed: bool): State {
    var d := if removed then s.disk.Unlink(Staged) else s.disk;
    var marked := s.upd.Marked? || s.upd.Emptied? || s.upd.Copying? || s.upd.Kept?;
    s.(disk := if cleared && marked then d.Mark(None) else d, upd := NoUpd, hist := CutCopy(s))
  }

  function UpdStep(env: Env, s: State, e: Event): State {
    match (e, s.upd)
    case (UpdOpen(v), NoUpd) =>
      if !s.dialed || !env.permits(env.stamp(s.running), v) then s
      else s.(disk := s.disk.Open(Staged), upd := Downloading(v, s.disk.Handle(Staged), []),
              hist := s.hist.(overlapped := s.hist.overlapped || s.roll != NoRoll))
    case (UpdWrite(chunk), Downloading(v, fd, streamed)) =>
      s.(disk := s.disk.Write(fd, s.disk.Bytes(fd) + chunk), upd := Downloading(v, fd, streamed + chunk))
    case (UpdVerify, Downloading(v, fd, streamed)) =>
      if env.digest(streamed) == env.listed(v) then s.(upd := Verified(v)) else Abandon(s, false, true)
    case (UpdPreflight, Verified(v)) =>
      if env.reports(s.disk.Content(Staged), v) then s.(upd := Preflighted(v)) else Abandon(s, false, true)
    case (UpdMark, Preflighted(v)) =>
      s.(disk := s.disk.Mark(Some(Marker(v, env.stamp(s.running), 0))), upd := Marked(v),
         hist := s.hist.(before := s.running, relinked := false, passes := 0,
                         slotAtMark := if Previous in s.disk.dir then Some(s.disk.Content(Previous)) else None))
    case (SwapRemove, Marked(v)) =>
      s.(disk := s.disk.Unlink(Previous), upd := Emptied(v), hist := s.hist.(slotTorn := false))
    case (SwapLink, Emptied(v)) =>
      s.(disk := s.disk.Link(Binary, Previous), upd := Kept(v), hist := s.hist.(relinked := true))
    case (SwapCopyOpen, Emptied(v)) =>
      s.(disk := s.disk.Open(Previous), upd := Copying(v, s.disk.Handle(Binary), s.disk.Handle(Previous)))
    case (SwapCopyWrite(n), Copying(v, src, fd)) => s.(disk := s.disk.Write(fd, Take(s.disk.Bytes(src), n)))
    case (SwapCopyFinish, Copying(v, src, fd)) =>
      s.(disk := s.disk.Write(fd, s.disk.Bytes(src)), upd := Kept(v), hist := s.hist.(relinked := true))
    case (SwapRename, Kept(v)) =>
      if Staged in s.disk.dir then s.(disk := s.disk.Rename(Staged, Binary), upd := Swapped(v)) else s
    case (UpdFail(cleared, removed), _) =>
      if s.upd.NoUpd? || s.upd.Swapped? then s else Abandon(s, cleared, removed)
    case _ => s
  }

  /** One event; an event that is not enabled changes nothing. Exit is a crash, since
      both leave only the disk behind. */
  function Step(env: Env, s: State, e: Event): State {
    match e
    case Start =>
      if s.up || Binary !in s.disk.dir then s
      else s.(up := true, booted := false, running := s.disk.Content(Binary), dialed := false, armed := false,
              roll := NoRoll, upd := NoUpd)
    case Crash =>
      s.(up := false, booted := false, dialed := false, armed := false, roll := NoRoll, upd := NoUpd, hist := CutCopy(s))
    case Recover(readable, recorded) => if s.up && !s.booted then RecoverStep(s, readable, recorded) else s
    case DialHome(cleared) =>
      if s.up && s.booted && !s.dialed then s.(dialed := true, disk := if cleared then s.disk.Mark(None) else s.disk)
      else s
    case ProbationExpires =>
      if s.up && s.booted && s.armed && !s.dialed then s.(armed := false, roll := RollWanted) else s
    case _ =>
      if !s.up || !s.booted then s
      else if e.RollOpen? || e.RollWrite? || e.RollFinish? || e.RollRename? || e.RollClear? || e.RollFail?
      then RollStep(s, e)
      else UpdStep(env, s, e)
  }

  function Exec(env: Env, s: State, events: seq<Event>): State {
    if events == [] then s else Step(env, Exec(env, s, events[..|events| - 1]), events[|events| - 1])
  }

  // ---------------------------------------------------------------- invariants

  ghost predicate FilesSound(d: Disk) {
    && Binary in d.dir
    && (forall n <- d.dir :: d.dir[n] in d.data && d.dir[n] < d.next)
    && (Staged in d.dir ==> d.dir[Staged] != d.dir[Binary])
    && (Staged in d.dir && Previous in d.dir ==> d.dir[Staged] != d.dir[Previous])
  }

  ghost predicate RollSound(s: State) {
    var d := s.disk;
    match s.roll
    case RollCopying(src, fd) =>
      Previous in d.dir && Staged in d.dir && src == d.dir[Previous] && fd == d.dir[Staged]
    case RollStaged => Previous in d.dir && Staged in d.dir && d.Content(Staged) == d.Content(Previous)
    case RollRenamed => Previous in d.dir && d.Content(Binary) == d.Content(Previous)
    case RollCleared => Previous in d.dir && d.Content(Binary) == d.Content(Previous)
    case _ => true
  }

  ghost predicate StagedVetted(env: Env, d: Disk, v: Version) {
    Staged in d.dir && env.digest(d.Content(Staged)) == env.listed(v) && env.reports(d.Content(Staged), v)
  }

  ghost predicate UpdSound(env: Env, s: State) {
    var d := s.disk;
    match s.upd
    case NoUpd => true
    case Downloading(v, fd, streamed) => Staged in d.dir && fd == d.dir[Staged] && d.Content(Staged) == streamed
    case Verified(v) => Staged in d.dir && env.digest(d.Content(Staged)) == env.listed(v)
    case Preflighted(v) => StagedVetted(env, d, v)
    case Marked(v) => StagedVetted(env, d, v) && s.hist.before == s.running && !s.hist.relinked
    case Emptied(v) => StagedVetted(env, d, v) && s.hist.before == s.running && !s.hist.relinked && Previous !in d.dir && !s.hist.slotTorn
    case Copying(v, src, fd) =>
      && StagedVetted(env, d, v) && s.hist.before == s.running && !s.hist.relinked && !s.hist.slotTorn
      && Previous in d.dir && Binary in d.dir && fd == d.dir[Previous] && src == d.dir[Binary] && fd != src
    case Kept(v) => StagedVetted(env, d, v) && s.hist.relinked
    case Swapped(v) => s.hist.relinked
  }

  /** The slot holds a whole image: it is there, and no copy into it is under way or was cut. */
  ghost predicate SlotFilled(s: State) {
    Previous in s.disk.dir && !s.upd.Copying? && !s.hist.slotTorn
  }

  ghost predicate SlotSound(s: State) {
    if s.hist.relinked then Previous in s.disk.dir && s.disk.Content(Previous) == s.hist.before && !s.hist.slotTorn
    else SlotFilled(s) ==> s.hist.slotAtMark == Some(s.disk.Content(Previous))
  }

  /** What every step keeps while the run has never rolled back from a torn slot and never
      let an update start during a rollback. */
  ghost predicate Sound(env: Env, first: Image, s: State) {
    && FilesSound(s.disk)
    && Good(env, first, s.disk.Content(Binary))
    && (SlotFilled(s) ==> Good(env, first, s.disk.Content(Previous)))
    && (s.roll == NoRoll || s.upd == NoUpd)
    && (s.upd != NoUpd ==> s.up && s.booted && s.dialed)
    && (s.roll != NoRoll ==> s.up && s.booted && !s.armed)
    && (s.roll != NoRoll && s.roll != RollWanted ==> !s.hist.slotTorn)
    && (s.armed ==> s.up && s.booted)
    && (s.up && !s.upd.Swapped? && !s.roll.RollRenamed? && !s.roll.RollCleared?
        ==> s.running == s.disk.Content(Binary))
    && RollSound(s)
    && UpdSound(env, s)
    && SlotSound(s)
  }

  ghost predicate Regular(s: State) {
    !s.hist.tore && !s.hist.overlapped
  }

  /** The files the protocol cares about are the same in both disks, `.new` aside. */
  ghost predicate SameSlots(d: Disk, d': Disk) {
    && FilesSound(d')
    && d'.Content(Binary) == d.Content(Binary)
    && (Previous in d'.dir <==> Previous in d.dir)
    && d'.Content(Previous) == d.Content(Previous)
    && (Previous in d.dir ==> d'.dir[Previous] == d.dir[Previous])
  }

  lemma OpenStaged(d: Disk)
    requires FilesSound(d)
    ensures var d' := d.Open(Staged);
            SameSlots(d, d') && Staged in d'.dir && d'.dir[Staged] == d.Handle(Staged) && d'.Content(Staged) == []
  {
  }

  lemma WriteStaged(d: Disk, bytes: Image)
    requires FilesSound(d) && Staged in d.dir
    ensures var d' := d.Write(d.dir[Staged], bytes);
            SameSlots(d, d') && d'.dir == d.dir && d'.Content(Staged) == bytes
  {
  }

  lemma UnlinkStaged(d: Disk)
    requires FilesSound(d)
    ensures SameSlots(d, d.Unlink(Staged))
  {
  }

  lemma InstallStaged(d: Disk)
    requires FilesSound(d) && Staged in d.dir
    ensures var d' := d.Rename(Staged, Binary);
            && FilesSound(d') && d'.Content(Binary) == d.Content(Staged)
            && (Previous in d'.dir <==> Previous in d.dir) && d'.Content(Previous) == d.Content(Previous)
  {
  }

  lemma RollStepSound(env: Env, first: Image, s: State, e: Event)
    requires Sound(env, first, s)
    ensures Regular(RollStep(s, e)) ==> Sound(env, first, RollStep(s, e))
  {
    match (e, s.roll)
    case (RollOpen, RollWanted) => OpenStaged(s.disk);
    case (RollWrite(n), RollCopying(src, fd)) => WriteStaged(s.disk, Take(s.disk.Bytes(src), n));
    case (RollFinish, RollCopying(src, fd)) => WriteStaged(s.disk, s.disk.Bytes(src));
    case (RollRename(ok), RollStaged) => InstallStaged(s.disk);
    case _ =>
  }

  lemma DownloadSound(env: Env, first: Image, s: State, e: Event)
    requires Sound(env, first, s) && (e.UpdOpen? || e.UpdWrite?) && s.up && s.booted
    ensures Regular(UpdStep(env, s, e)) ==> Sound(env, first, UpdStep(env, s, e))
  {
    match (e, s.upd)
    case (UpdOpen(v), NoUpd) => OpenStaged(s.disk);
    case (UpdWrite(chunk), Downloading(v, fd, streamed)) => WriteStaged(s.disk, s.disk.Bytes(fd) + chunk);
    case _ =>
  }

  lemma MarkSound(env: Env, first: Image, s: State, e: Event)
    requires Sound(env, first, s) && e.UpdMark?
    ensures Sound(env, first, UpdStep(env, s, e))
  {
  }

  /** Giving an update up removes at most the staged file and the marker. */
  lemma AbandonSound(env: Env, first: Image, s: State, cleared: bool, removed: bool)
    requires Sound(env, first, s) && !s.upd.NoUpd? && !s.upd.Swapped?
    ensures Sound(env, first, Abandon(s, cleared, removed))
  {
    UnlinkStaged(s.disk);
    var t := Abandon(s, cleared, removed);
    assert s.roll == NoRoll && t == s.(disk := t.disk, upd := NoUpd, hist := CutCopy(s));
    assert t.disk.dir == s.disk.dir || t.disk.dir == s.disk.Unlink(Staged).dir;
    assert SameSlots(s.disk, t.disk);
    hide Abandon; hide Good;
  }

  lemma VetSound(env: Env, first: Image, s: State, e: Event)
    requires Sound(env, first, s) && (e.UpdVerify? || e.UpdPreflight?)
    ensures Sound(env, first, UpdStep(env, s, e))
  {
    if (e.UpdVerify? && s.upd.Downloading?) || (e.UpdPreflight? && s.upd.Verified?) {
      AbandonSound(env, first, s, false, true);
      hide Abandon; hide Good;
    }
  }

  lemma FailSound(env: Env, first: Image, s: State, e: Event)
    requires Sound(env, first, s) && e.UpdFail?
    ensures Sound(env, first, UpdStep(env, s, e))
  {
    if !s.upd.NoUpd? && !s.upd.Swapped? {
      hide Sound; hide Abandon;
      AbandonSound(env, first, s, e.cleared, e.removed);
    }
  }

  lemma RemoveSound(env: Env, first: Image, s: State, e: Event)
    requires Sound(env, first, s) && e.SwapRemove?
    ensures Sound(env, first, UpdStep(env, s, e))
  {
  }

  lemma LinkSound(env: Env, first: Image, s: State, e: Event)
    requires Sound(env, first, s) && e.SwapLink?
    ensures Sound(env, first, UpdStep(env, s, e))
  {
  }

  lemma RenameSound(env: Env, first: Image, s: State, e: Event)
    requires Sound(env, first, s) && e.SwapRename?
    ensures Sound(env, first, UpdStep(env, s, e))
  {
    if s.upd.Kept? {
      InstallStaged(s.disk);
    }
  }

  /** The fallback writes only to the slot's own new inode. */
  lemma CopySound(env: Env, first: Image, s: State, e: Event)
    requires Sound(env, first, s) && (e.SwapCopyOpen? || e.SwapCopyWrite? || e.SwapCopyFinish?)
    ensures Sound(env, first, UpdStep(env, s, e))
  {
  }

  /** A process dies: a copy it was making is cut. */
  lemma CrashSound(env: Env, first: Image, s: State)
    requires Sound(env, first, s)
    ensures Sound(env, first, Step(env, s, Crash))
  {
  }

  lemma StartSound(env: Env, first: Image, s: State)
    requires Sound(env, first, s)
    ensures Sound(env, first, Step(env, s, Start))
  {
    hide Good;
  }

  lemma BootSound(env: Env, first: Image, s: State, e: Event)
    requires Sound(env, first, s) && (e.Recover? || e.DialHome? || e.ProbationExpires?)
    ensures Sound(env, first, Step(env, s, e))
  {
    hide Good;
  }

  lemma ProcessSound(env: Env, first: Image, s: State, e: Event)
    requires Sound(env, first, s)
    requires e.Start? || e.Recover? || e.DialHome? || e.ProbationExpires?
    ensures Sound(env, first, Step(env, s, e))
  {
    hide Sound; hide Step;
    if e.Start? {
      StartSound(env, first, s);
    } else {
      BootSound(env, first, s, e);
    }
  }

  lemma UpdStepSound(env: Env, first: Image, s: State, e: Event)
    requires Sound(env, first, s) && s.up && s.booted
    ensures Regular(UpdStep(env, s, e)) ==> Sound(env, first, UpdStep(env, s, e))
  {
    match e
    case UpdOpen(_) => DownloadSound(env, first, s, e);
    case UpdWrite(_) => DownloadSound(env, first, s, e);
    case UpdVerify => VetSound(env, first, s, e);
    case UpdPreflight => VetSound(env, first, s, e);
    case UpdMark => MarkSound(env, first, s, e);
    case UpdFail(_, _) => FailSound(env, first, s, e);
    case SwapRemove => RemoveSound(env, first, s, e);
    case SwapLink => LinkSound(env, first, s, e);
    case SwapRename => RenameSound(env, first, s, e);
    case SwapCopyOpen => CopySound(env, first, s, e);
    case SwapCopyWrite(_) => CopySound(env, first, s, e);
    case SwapCopyFinish => CopySound(env, first, s, e);
    case _ =>
  }

  lemma IrregularUpd(env: Env, s: State, e: Event)
    requires !Regular(s)
    ensures !Regular(UpdStep(env, s, e))
  {
  }

  lemma IrregularRoll(s: State, e: Event)
    requires !Regular(s)
    ensures !Regular(RollStep(s, e))
  {
  }

  /** The history never forgets. */
  lemma IrregularStays(env: Env, s: State, e: Event)
    requires !Regular(s)
    ensures !Regular(Step(env, s, e))
  {
    hide RollStep; hide UpdStep;
    IrregularUpd(env, s, e);
    IrregularRoll(s, e);
  }

  lemma StepSound(env: Env, first: Image, s: State, e: Event)
    requires Regular(s) ==> Sound(env, first, s)
    ensures Regular(Step(env, s, e)) ==> Sound(env, first, Step(env, s, e))
  {
    hide Sound; hide RollStep; hide UpdStep; hide Regular;
    if !Regular(s) {
      IrregularStays(env, s, e);
    } else if e.Crash? {
      CrashSound(env, first, s);
    } else if e.Start? || e.Recover? || e.DialHome? || e.ProbationExpires? {
      ProcessSound(env, first, s, e);
    } else if s.up && s.booted {
      RollStepSound(env, first, s, e);
      UpdStepSound(env, first, s, e);
    }
  }

  lemma {:induction false} RunSound(env: Env, first: Image, events: seq<Event>)
    ensures var s := Exec(env, Init(first), events); Regular(s) ==> Sound(env, first, s)
  {
    if events != [] {
      RunSound(env, first, events[..|events| - 1]);
      StepSound(env, first, Exec(env, Init(first), events[..|events| - 1]), events[|events| - 1]);
    }
  }

  /** The operations the protocol performs keep the names sound. */
  lemma FilesOps(d: Disk)
    requires FilesSound(d)
    ensures FilesSound(d.Open(Staged)) && FilesSound(d.Open(Previous))
    ensures FilesSound(d.Unlink(Staged)) && FilesSound(d.Unlink(Previous))
    ensures FilesSound(d.Link(Binary, Previous)) && (Staged in d.dir ==> FilesSound(d.Rename(Staged, Binary)))
    ensures forall inode, bytes :: FilesSound(d.Write(inode, bytes))
    ensures forall m :: FilesSound(d.Mark(m))
  {
  }

  lemma FilesAbandon(s: State, cleared: bool, removed: bool)
    requires FilesSound(s.disk)
    ensures FilesSound(Abandon(s, cleared, removed).disk)
  {
    FilesOps(s.disk);
    FilesOps(s.disk.Unlink(Staged));
    hide FilesSound;
  }

  lemma FilesStage(env: Env, s: State, e: Event)
    requires FilesSound(s.disk) && (e.UpdOpen? || e.UpdWrite? || e.UpdMark? || e.UpdFail?)
    ensures FilesSound(UpdStep(env, s, e).disk)
  {
    FilesOps(s.disk);
    if e.UpdFail? {
      FilesAbandon(s, e.cleared, e.removed);
    }
    hide FilesSound; hide Abandon;
  }

  lemma FilesVet(env: Env, s: State, e: Event)
    requires FilesSound(s.disk) && (e.UpdVerify? || e.UpdPreflight?)
    ensures FilesSound(UpdStep(env, s, e).disk)
  {
    FilesAbandon(s, false, true);
    hide FilesSound; hide Abandon;
  }

  lemma FilesSwap(env: Env, s: State, e: Event)
    requires FilesSound(s.disk)
    requires e.SwapRemove? || e.SwapLink? || e.SwapCopyOpen? || e.SwapCopyWrite? || e.SwapCopyFinish? || e.SwapRename?
    ensures FilesSound(UpdStep(env, s, e).disk)
  {
    FilesOps(s.disk);
    hide FilesSound;
  }

  lemma FilesUpd(env: Env, s: State, e: Event)
    requires FilesSound(s.disk)
    ensures FilesSound(UpdStep(env, s, e).disk)
  {
    if e.UpdOpen? || e.UpdWrite? || e.UpdMark? || e.UpdFail? {
      FilesStage(env, s, e);
    } else if e.UpdVerify? || e.UpdPreflight? {
      FilesVet(env, s, e);
    } else if e.SwapRemove? || e.SwapLink? || e.SwapCopyOpen? || e.SwapCopyWrite? || e.SwapCopyFinish? || e.SwapRename? {
      FilesSwap(env, s, e);
    }
    hide FilesSound;
  }

  lemma FilesRollCopy(s: State, e: Event)
    requires FilesSound(s.disk) && (e.RollOpen? || e.RollWrite? || e.RollFinish?)
    ensures FilesSound(RollStep(s, e).disk)
  {
    FilesOps(s.disk);
    hide FilesSound;
  }

  lemma FilesRollEnd(s: State, e: Event)
    requires FilesSound(s.disk) && (e.RollRename? || e.RollClear? || e.RollFail?)
    ensures FilesSound(RollStep(s, e).disk)
  {
    FilesOps(s.disk);
    hide FilesSound;
  }

  lemma FilesRoll(s: State, e: Event)
    requires FilesSound(s.disk)
    ensures FilesSound(RollStep(s, e).disk)
  {
    if e.RollOpen? || e.RollWrite? || e.RollFinish? {
      FilesRollCopy(s, e);
    } else if e.RollRename? || e.RollClear? || e.RollFail? {
      FilesRollEnd(s, e);
    }
    hide FilesSound;
  }

  lemma FilesProcess(env: Env, s: State, e: Event)
    requires FilesSound(s.disk)
    ensures FilesSound(Step(env, s, e).disk)
  {
    FilesOps(s.disk);
    FilesUpd(env, s, e);
    FilesRoll(s, e);
    hide FilesSound; hide UpdStep; hide RollStep;
  }

  /** In every run, regular or not, the three names are names of whole inodes and the staged
      file is its own. */
  lemma {:induction false} FilesAlways(env: Env, first: Image, events: seq<Event>)
    ensures FilesSound(Exec(env, Init(first), events).disk)
  {
    if events != [] {
      FilesAlways(env, first, events[..|events| - 1]);
      hide FilesSound; hide Step;
      FilesProcess(env, Exec(env, Init(first), events[..|events| - 1]), events[|events| - 1]);
    }
  }

  // ------------------------------------------------------------- main results

  /** At every point of every run of updates, crashes, restarts and rollbacks that
      keeps updates out of rollbacks and never rolls back from a slot that a cut copy left
      behind, the file at the binary path is complete: the first image, or one that passed
      digest and pre-flight. On hard links no slot is ever such a one. */
  lemma BinaryAlwaysVetted(env: Env, first: Image, events: seq<Event>)
    ensures var s := Exec(env, Init(first), events);
            Regular(s) ==> Binary in s.disk.dir && Good(env, first, s.disk.Content(Binary))
  {
    RunSound(env, first, events);
  }

  /** What a finished rollback has put back, however often it was interrupted and
      repeated: the image whose process wrote the marker exactly when the slot was
      refilled after that marker or held that image already, and otherwise the older image
      the slot still held. */
  lemma RollbackRestores(env: Env, first: Image, events: seq<Event>)
    ensures var s := Exec(env, Init(first), events);
            Regular(s) && (s.roll.RollRenamed? || s.roll.RollCleared?) ==>
              && (s.disk.Content(Binary) == s.hist.before <==> s.hist.relinked || s.hist.slotAtMark == Some(s.hist.before))
              && (!s.hist.relinked ==> s.hist.slotAtMark == Some(s.disk.Content(Binary)))
  {
    RunSound(env, first, events);
  }

  /** The marker on disk names the build stamp of the image recorded in the history,
      and counts the starts that recorded an attempt: never more than one. */
  ghost predicate MarkerSound(env: Env, s: State) {
    && Binary in s.disk.dir
    && s.hist.passes <= 1
    && (s.disk.marker.Some? ==>
          s.disk.marker.value.attempts == s.hist.passes && s.disk.marker.value.previous == env.stamp(s.hist.before))
  }

  lemma MarkerRoll(env: Env, s: State, e: Event)
    requires MarkerSound(env, s)
    ensures MarkerSound(env, RollStep(s, e))
  {
  }

  lemma MarkerUpd(env: Env, s: State, e: Event)
    requires MarkerSound(env, s)
    ensures MarkerSound(env, UpdStep(env, s, e))
  {
    if e.UpdOpen? || e.UpdWrite? || e.UpdVerify? || e.UpdPreflight? || e.UpdFail? {
      MarkerStage(env, s, e);
    } else {
      MarkerSwap(env, s, e);
    }
    hide UpdStep; hide MarkerSound;
  }

  lemma MarkerStage(env: Env, s: State, e: Event)
    requires MarkerSound(env, s) && (e.UpdOpen? || e.UpdWrite? || e.UpdVerify? || e.UpdPreflight? || e.UpdFail?)
    ensures MarkerSound(env, UpdStep(env, s, e))
  {
    MarkerAbandon(env, s, false, true);
    if e.UpdFail? {
      MarkerAbandon(env, s, e.cleared, e.removed);
    }
    hide Abandon;
    StageKeeps(env, s, e);
    hide UpdStep;
  }

  lemma MarkerAbandon(env: Env, s: State, cleared: bool, removed: bool)
    requires MarkerSound(env, s)
    ensures MarkerSound(env, Abandon(s, cleared, removed))
  {
  }

  lemma StageKeeps(env: Env, s: State, e: Event)
    requires Binary in s.disk.dir && (e.UpdOpen? || e.UpdWrite? || e.UpdVerify? || e.UpdPreflight? || e.UpdFail?)
    ensures var t := UpdStep(env, s, e);
            || t == Abandon(s, false, true) || (e.UpdFail? && t == Abandon(s, e.cleared, e.removed))
            || (Binary in t.disk.dir && t.disk.marker == s.disk.marker && t.hist.passes == s.hist.passes
                && t.hist.before == s.hist.before)
  {
    hide Abandon;
  }

  lemma MarkerSwap(env: Env, s: State, e: Event)
    requires MarkerSound(env, s) && !(e.UpdOpen? || e.UpdWrite? || e.UpdVerify? || e.UpdPreflight? || e.UpdFail?)
    ensures MarkerSound(env, UpdStep(env, s, e))
  {
  }

  lemma MarkerStep(env: Env, s: State, e: Event)
    requires MarkerSound(env, s)
    ensures MarkerSound(env, Step(env, s, e))
  {
    MarkerRoll(env, s, e);
    MarkerUpd(env, s, e);
    hide RollStep; hide UpdStep;
  }

  lemma {:induction false} OneRecordedAttempt(env: Env, first: Image, events: seq<Event>)
    ensures MarkerSound(env, Exec(env, Init(first), events))
  {
    if events != [] {
      OneRecordedAttempt(env, first, events[..|events| - 1]);
      hide Step; hide MarkerSound;
      MarkerStep(env, Exec(env, Init(first), events[..|events| - 1]), events[|events| - 1]);
    }
  }

  /** A run written out state by state. */
  ghost predicate Path(env: Env, states: seq<State>, events: seq<Event>) {
    && |states| == |events| + 1
    && forall i {:trigger events[i]} :: 0 <= i < |events| ==> states[i + 1] == Step(env, states[i], events[i])
  }

  ghost predicate Reaches(env: Env, s: State, t: State) {
    exists states, events :: Path(env, states, events) && states[0] == s && states[|events|] == t
  }

  lemma {:induction false} PathIsExec(env: Env, states: seq<State>, events: seq<Event>)
    requires Path(env, states, events)
    ensures states[|events|] == Exec(env, states[0], events)
    decreases |events|
  {
    if events != [] {
      var n := |events| - 1;
      assert events[n] == events[n] && forall i {:trigger events[..n][i]} :: 0 <= i < n ==> events[..n][i] == events[i];
      PathIsExec(env, states[..n + 1], events[..n]);
    }
  }

  lemma {:induction false} ExecIsPath(env: Env, s: State, events: seq<Event>) returns (states: seq<State>)
    ensures Path(env, states, events) && states[0] == s && states[|events|] == Exec(env, s, events)
    decreases |events|
  {
    if events == [] {
      states := [s];
    } else {
      var n := |events| - 1;
      var prefix := ExecIsPath(env, s, events[..n]);
      states := prefix + [Exec(env, s, events)];
      assert forall i {:trigger events[i]} :: 0 <= i < n ==> events[..n][i] == events[i];
    }
  }

  /** Reaching is having an event list that executes to the goal. */
  lemma ReachesByEvents(env: Env, s: State, t: State)
    ensures Reaches(env, s, t) <==> exists events :: Exec(env, s, events) == t
  {
    if Reaches(env, s, t) {
      var states, events :| Path(env, states, events) && states[0] == s && states[|events|] == t;
      PathIsExec(env, states, events);
    }
    if events :| Exec(env, s, events) == t {
      var states := ExecIsPath(env, s, events);
    }
  }

  lemma ReachesTrans(env: Env, s: State, t: State, u: State)
    requires Reaches(env, s, t) && Reaches(env, t, u)
    ensures Reaches(env, s, u)
  {
    var xs, es :| Path(env, xs, es) && xs[0] == s && xs[|es|] == t;
    var ys, fs :| Path(env, ys, fs) && ys[0] == t && ys[|fs|] == u;
    var states, events := xs + ys[1..], es + fs;
    forall i {:trigger events[i]} | 0 <= i < |events| ensures states[i + 1] == Step(env, states[i], events[i]) {
      if i < |es| {
        assert events[i] == es[i];
      } else {
        assert events[i] == fs[i - |es|] && states[i] == ys[i - |es|];
      }
    }
    assert Path(env, states, events);
  }

  lemma OneStep(env: Env, s: State, e: Event)
    ensures Reaches(env, s, s) && Reaches(env, s, Step(env, s, e))
  {
    assert Path(env, [s], []) && Path(env, [s, Step(env, s, e)], [e]);
  }

  lemma Go(env: Env, s: State, t: State, e: Event) returns (t': State)
    requires Reaches(env, s, t)
    ensures t' == Step(env, t, e) && Reaches(env, s, t')
  {
    OneStep(env, t, e);
    t' := Step(env, t, e);
    ReachesTrans(env, s, t, t');
  }

  /** One undisturbed step of a rollback towards its end. */
  lemma RollbackAdvances(env: Env, first: Image, s: State) returns (t: State)
    requires Sound(env, first, s) && s.hist.relinked && (s.roll.RollWanted? || s.roll.RollCopying? || s.roll.RollStaged?)
    ensures Reaches(env, s, t) && Sound(env, first, t) && t.hist == s.hist
    ensures s.roll.RollWanted? ==> t.roll.RollCopying?
    ensures s.roll.RollCopying? ==> t.roll.RollStaged?
    ensures s.roll.RollStaged? ==> t.roll.RollRenamed?
  {
    hide Reaches; hide UpdStep;
    var e := match s.roll case RollWanted => RollOpen case RollStaged => RollRename(true) case _ => RollFinish;
    OneStep(env, s, Crash);
    t := Go(env, s, s, e);
    RollStepSound(env, first, s, e);
  }

  lemma RollbackCompletes(env: Env, first: Image, s: State) returns (t: State)
    requires Sound(env, first, s) && s.roll.RollWanted? && s.hist.relinked
    ensures Reaches(env, s, t) && t.disk.Content(Binary) == s.hist.before && t.disk.marker.None?
  {
    var t1 := RollbackAdvances(env, first, s);
    var t2 := RollbackAdvances(env, first, t1);
    var t3 := RollbackAdvances(env, first, t2);
    ReachesTrans(env, s, t1, t2);
    ReachesTrans(env, s, t2, t3);
    t := Go(env, s, t3, RollClear(true));
  }

  /** The next start that still sees a marker whose one attempt is spent rolls back at
      once; undisturbed from there it restores the image whose process wrote the
      marker (the one marker.Previous names) and clears the marker. */
  lemma SecondStartRollsBack(env: Env, first: Image, events: seq<Event>, recorded: bool) returns (t: State)
    requires var s := Exec(env, Init(first), events); !s.up && s.disk.marker.Some? && s.hist.passes == 1
    ensures var s := Exec(env, Init(first), events);
            var r := Step(env, Step(env, s, Start), Recover(true, recorded));
            && r.roll == RollWanted
            && (Regular(s) && s.hist.relinked ==>
                  && Reaches(env, r, t) && t.disk.marker.None?
                  && t.disk.Content(Binary) == s.hist.before
                  && env.stamp(t.disk.Content(Binary)) == s.disk.marker.value.previous)
  {
    var s := Exec(env, Init(first), events);
    OneRecordedAttempt(env, first, events);
    var r := Step(env, Step(env, s, Start), Recover(true, recorded));
    t := r;
    if Regular(s) && s.hist.relinked {
      RunSound(env, first, events);
      ProcessSound(env, first, s, Start);
      ProcessSound(env, first, Step(env, s, Start), Recover(true, recorded));
      t := RollbackCompletes(env, first, r);
    }
  }

  /** A new binary on probation that does not dial home is rolled back without a restart:
      from every reachable state on probation the expiry wants the rollback, and undisturbed
      from there it restores the image whose process wrote the marker. A process that has
      dialled home is left alone. */
  lemma ProbationRollsBack(env: Env, first: Image, events: seq<Event>) returns (t: State)
    requires Exec(env, Init(first), events).armed
    ensures var s := Exec(env, Init(first), events);
            var r := Step(env, s, ProbationExpires);
            && (s.dialed ==> r == s)
            && (!s.dialed && Regular(s) ==> r.roll == RollWanted)
            && (!s.dialed && Regular(s) && s.hist.relinked ==>
                  Reaches(env, r, t) && t.disk.marker.None? && t.disk.Content(Binary) == s.hist.before)
  {
    var s := Exec(env, Init(first), events);
    var r := Step(env, s, ProbationExpires);
    RunSound(env, first, events);
    hide Exec;
    t := r;
    if !s.dialed && Regular(s) {
      assert s.up && s.booted;
      if s.hist.relinked {
        ProcessSound(env, first, s, ProbationExpires);
        hide Sound;
        t := RollbackCompletes(env, first, r);
      }
    }
  }

  /** From the marker on it names the version that is being installed. */
  ghost predicate NamesTarget(s: State) {
    (s.upd.Marked? || s.upd.Emptied? || s.upd.Copying? || s.upd.Kept? || s.upd.Swapped?) && s.disk.marker.Some? ==>
      s.disk.marker.value.target == s.upd.v
  }

  lemma TargetRoll(s: State, e: Event)
    requires NamesTarget(s)
    ensures NamesTarget(RollStep(s, e))
  {
  }

  lemma TargetUpd(env: Env, s: State, e: Event)
    requires NamesTarget(s)
    ensures NamesTarget(UpdStep(env, s, e))
  {
  }

  lemma {:induction false} MarkerNamesTarget(env: Env, first: Image, events: seq<Event>)
    ensures var s := Exec(env, Init(first), events); NamesTarget(s) && (s.upd != NoUpd ==> s.up && s.booted)
  {
    if events != [] {
      MarkerNamesTarget(env, first, events[..|events| - 1]);
      var s, e := Exec(env, Init(first), events[..|events| - 1]), events[|events| - 1];
      TargetRoll(s, e);
      TargetUpd(env, s, e);
      UpRoll(s, e);
      UpUpd(env, s, e);
      hide RollStep; hide UpdStep;
    }
  }

  lemma UpRoll(s: State, e: Event)
    ensures RollStep(s, e).up == s.up && RollStep(s, e).booted == s.booted && RollStep(s, e).upd == s.upd
  {
  }

  lemma UpUpd(env: Env, s: State, e: Event)
    ensures UpdStep(env, s, e).up == s.up && UpdStep(env, s, e).booted == s.booted
  {
  }

  ghost predicate Quiet(s: State) { s.disk.marker.None? && s.roll.NoRoll? && !s.armed }

  lemma QuietStep(env: Env, s: State, e: Event)
    requires Quiet(s) && !e.UpdMark?
    ensures Quiet(Step(env, s, e))
  {
    assert Quiet(RollStep(s, e));
    assert Quiet(UpdStep(env, s, e));
    hide RollStep; hide UpdStep;
  }

  /** Once the marker is gone, no later start rolls back until an update marks again. */
  lemma {:induction false} NoMarkerNoRollback(env: Env, s: State, events: seq<Event>)
    requires Quiet(s) && UpdMark !in events
    ensures Quiet(Exec(env, s, events))
  {
    if events != [] {
      hide Step; hide Quiet;
      NoMarkerNoRollback(env, s, events[..|events| - 1]);
      QuietStep(env, Exec(env, s, events[..|events| - 1]), events[|events| - 1]);
    }
  }

  /** On hard links the slot is never torn. */
  lemma {:induction false} LinksNeverTear(env: Env, first: Image, events: seq<Event>)
    requires SwapCopyOpen !in events
    ensures Untorn(Exec(env, Init(first), events))
  {
    if events != [] {
      hide Step; hide Untorn;
      LinksNeverTear(env, first, events[..|events| - 1]);
      UntornStep(env, Exec(env, Init(first), events[..|events| - 1]), events[|events| - 1]);
    } else {
      assert Untorn(Init(first)) by { UntornInit(first); }
    }
  }

  ghost predicate Untorn(s: State) { !s.upd.Copying? && !s.hist.slotTorn && !s.hist.tore }

  lemma UntornInit(first: Image)
    ensures Untorn(Init(first))
  {
  }

  lemma UntornUpd(env: Env, s: State, e: Event)
    requires Untorn(s) && !e.SwapCopyOpen?
    ensures Untorn(UpdStep(env, s, e))
  {
  }

  lemma UntornRoll(s: State, e: Event)
    requires Untorn(s)
    ensures Untorn(RollStep(s, e))
  {
  }

  lemma UntornStep(env: Env, s: State, e: Event)
    requires Untorn(s) && !e.SwapCopyOpen?
    ensures Untorn(Step(env, s, e))
  {
    UntornUpd(env, s, e);
    UntornRoll(s, e);
    hide RollStep; hide UpdStep;
  }

  // ------------------------------------ why the two conditions are there at all

  ghost predicate Vetted(env: Env, c: Image, v: Version) {
    env.digest(c) == env.listed(v) && env.reports(c, v)
  }

  /** An idle process that has dialed home can download any image for a version it permits. */
  lemma DownloadRun(env: Env, s: State, v: Version, c: Image) returns (t: State)
    requires s.up && s.booted && s.dialed && s.upd.NoUpd? && Staged !in s.disk.dir
    requires env.permits(env.stamp(s.running), v)
    ensures Reaches(env, s, t)
    ensures t == s.(disk := s.disk.Open(Staged).Write(s.disk.next, c), upd := Downloading(v, s.disk.next, c),
                    hist := s.hist.(overlapped := s.hist.overlapped || s.roll != NoRoll))
  {
    OneStep(env, s, UpdOpen(v));
    var open := Step(env, s, UpdOpen(v));
    assert open.disk.Bytes(s.disk.next) == [] && open.upd == Downloading(v, s.disk.next, []);
    assert [] + c == c;
    t := Go(env, s, open, UpdWrite(c));
  }

  /** ... and pre-flight it if it is vetted. */
  lemma StageRun(env: Env, s: State, v: Version, c: Image) returns (t: State)
    requires s.up && s.booted && s.dialed && s.upd.NoUpd? && Staged !in s.disk.dir && Vetted(env, c, v)
    requires env.permits(env.stamp(s.running), v)
    ensures Reaches(env, s, t)
    ensures t == s.(disk := s.disk.Open(Staged).Write(s.disk.next, c), upd := Preflighted(v),
                    hist := s.hist.(overlapped := s.hist.overlapped || s.roll != NoRoll))
  {
    hide Reaches;
    t := DownloadRun(env, s, v, c);
    assert t.disk.Content(Staged) == c;
    t := Go(env, s, t, UpdVerify);
    t := Go(env, s, t, UpdPreflight);
  }

  /** A start that dials home, on a host with no marker or a marker not yet tried. */
  lemma ConfirmRun(env: Env, s: State) returns (t: State)
    requires !s.up && Binary in s.disk.dir && (s.disk.marker.Some? ==> s.disk.marker.value.attempts == 0)
    ensures Reaches(env, s, t) && t.up && t.booted && t.dialed && t.roll.NoRoll? && t.upd.NoUpd?
    ensures t.running == s.disk.Content(Binary) && t.disk == s.disk.Mark(None)
    ensures t.hist == s.hist.(passes := t.hist.passes)
  {
    OneStep(env, s, Crash);
    t := Go(env, s, s, Start);
    t := Go(env, s, t, Recover(true, true));
    t := Go(env, s, t, DialHome(true));
  }

  /** A start that records its attempt and dies before dialing home. */
  lemma LostStart(env: Env, s: State) returns (t: State)
    requires !s.up && Binary in s.disk.dir && s.disk.marker.Some? && s.disk.marker.value.attempts == 0
    ensures Reaches(env, s, t) && !t.up && t.hist == s.hist.(passes := t.hist.passes)
    ensures t.disk == s.disk.Mark(Some(s.disk.marker.value.(attempts := 1)))
  {
    OneStep(env, s, Crash);
    t := Go(env, s, s, Start);
    t := Go(env, s, t, Recover(true, true));
    t := Go(env, s, t, Crash);
  }

  /** Write the marker and empty the slot. */
  lemma MarkRun(env: Env, s: State) returns (t: State)
    requires s.up && s.booted && s.upd.Preflighted?
    ensures Reaches(env, s, t)
    ensures t == s.(disk := s.disk.Mark(Some(Marker(s.upd.v, env.stamp(s.running), 0))).Unlink(Previous),
                    upd := Emptied(s.upd.v), hist := t.hist)
    ensures t.hist.tore == s.hist.tore && t.hist.overlapped == s.hist.overlapped && !t.hist.slotTorn
    ensures t.hist.before == s.running
  {
    OneStep(env, s, UpdMark);
    t := Go(env, s, Step(env, s, UpdMark), SwapRemove);
  }

  /** Mark and refill the slot over a hard link. */
  lemma KeepRun(env: Env, s: State) returns (t: State)
    requires s.up && s.booted && s.upd.Preflighted? && Binary in s.disk.dir
    ensures Reaches(env, s, t) && t.up && t.booted && t.upd.Kept? && t.roll == s.roll
    ensures t.disk == s.disk.Mark(Some(Marker(s.upd.v, env.stamp(s.running), 0))).Unlink(Previous).Link(Binary, Previous)
    ensures t.hist.tore == s.hist.tore && t.hist.overlapped == s.hist.overlapped && !t.hist.slotTorn
    ensures t.hist.before == s.running && t.hist.relinked
  {
    hide Reaches; hide RollStep;
    t := MarkRun(env, s);
    t := Go(env, s, t, SwapLink);
  }

  /** Mark, swap over a hard link, and exit. */
  lemma SwapRun(env: Env, s: State) returns (t: State)
    requires s.up && s.booted && s.upd.Preflighted? && Binary in s.disk.dir && Staged in s.disk.dir
    ensures Reaches(env, s, t) && !t.up && t.roll.NoRoll? && t.upd.NoUpd?
    ensures t.disk == s.disk.Mark(Some(Marker(s.upd.v, env.stamp(s.running), 0)))
                      .Unlink(Previous).Link(Binary, Previous).Rename(Staged, Binary)
    ensures t.hist.tore == s.hist.tore && t.hist.overlapped == s.hist.overlapped && !t.hist.slotTorn
    ensures t.hist.before == s.running && t.hist.relinked
  {
    hide Reaches; hide RollStep;
    t := KeepRun(env, s);
    assert Staged in t.disk.dir;
    t := Go(env, s, t, SwapRename);
    t := Go(env, s, t, Crash);
  }

  /** A start on a spent marker, up to the rename of its rollback. */
  lemma RollbackRun(env: Env, s: State) returns (t: State)
    requires !s.up && Binary in s.disk.dir && Previous in s.disk.dir && s.disk.dir[Previous] < s.disk.next
    requires Staged in s.disk.dir ==> s.disk.dir[Staged] != s.disk.dir[Previous]
    requires s.disk.marker.Some? && s.disk.marker.value.attempts == 1
    ensures Reaches(env, s, t) && t.roll.RollRenamed? && t.disk.marker == s.disk.marker
    ensures t.hist == s.hist.(tore := s.hist.tore || s.hist.slotTorn)
    ensures t.disk.Content(Binary) == s.disk.Content(Previous)
  {
    hide Reaches; hide UpdStep;
    OneStep(env, s, Crash);
    t := Go(env, s, s, Start);
    t := Go(env, s, t, Recover(true, true));
    assert t.roll.RollWanted? && t.disk == s.disk && t.hist == s.hist && t.up && t.booted;
    t := Go(env, s, t, RollOpen);
    t := Go(env, s, t, RollFinish);
    assert t.disk.Content(Staged) == s.disk.Content(Previous);
    t := Go(env, s, t, RollRename(true));
  }

  /** `b` replaces `a` over hard links and confirms itself. */
  lemma FirstUpdateRun(env: Env, a: Image, v: Version, b: Image) returns (t: State)
    requires Vetted(env, b, v) && env.permits(env.stamp(a), v)
    ensures Reaches(env, Init(a), t) && Regular(t) && !t.hist.slotTorn
    ensures t.up && t.booted && t.dialed && t.roll.NoRoll? && t.upd.NoUpd? && t.running == b
    ensures t.disk.dir == map[Binary := 1, Previous := 0] && t.disk.next == 2 && t.disk.marker.None?
    ensures t.disk.Content(Binary) == b && t.disk.Content(Previous) == a
  {
    hide Reaches; hide Step;
    var s1 := ConfirmRun(env, Init(a));
    var s2 := StageRun(env, s1, v, b);
    var s3 := SwapRun(env, s2);
    assert s3.disk.dir == map[Binary := 1, Previous := 0] && s3.disk.Content(Binary) == b && s3.disk.Content(Previous) == a;
    t := ConfirmRun(env, s3);
    ReachesTrans(env, Init(a), s1, s2);
    ReachesTrans(env, Init(a), s2, s3);
    ReachesTrans(env, Init(a), s3, t);
  }

  /** The process writes its marker and dies. */
  lemma MarkAndDieRun(env: Env, s: State) returns (t: State)
    requires s.up && s.booted && s.upd.Preflighted?
    ensures Reaches(env, s, t) && !t.up
    ensures t.disk == s.disk.Mark(Some(Marker(s.upd.v, env.stamp(s.running), 0)))
    ensures t.hist == s.hist.(before := s.running, relinked := false, passes := 0,
                              slotAtMark := if Previous in s.disk.dir then Some(s.disk.Content(Previous)) else None)
  {
    OneStep(env, s, UpdMark);
    t := Go(env, s, Step(env, s, UpdMark), Crash);
  }

  /** A crash between the marker and the relink is not harmless: whatever images and
      versions are involved, there is a regular run in which `b` confirms itself, an
      update by `b` dies right after its marker, `b` restarts once without dialing
      home, and the rollback then restores the older `a`, not the image the marker
      names. */
  lemma StaleSlotRollsBackTooFar(env: Env, a: Image, v1: Version, b: Image, v2: Version, c: Image) returns (t: State)
    requires Vetted(env, b, v1) && Vetted(env, c, v2)
    requires env.permits(env.stamp(a), v1) && env.permits(env.stamp(b), v2)
    ensures Reaches(env, Init(a), t) && Regular(t) && t.roll.RollRenamed? && t.hist.before == b
    ensures t.disk.marker.Some? && t.disk.marker.value.previous == env.stamp(b) && t.disk.Content(Binary) == a
  {
    hide Reaches; hide Step;
    var s4 := FirstUpdateRun(env, a, v1, b);
    var s5 := StageRun(env, s4, v2, c);
    var s7 := MarkAndDieRun(env, s5);
    var s8 := LostStart(env, s7);
    t := RollbackRun(env, s8);
    ReachesTrans(env, Init(a), s4, s5);
    ReachesTrans(env, Init(a), s5, s7);
    ReachesTrans(env, Init(a), s7, s8);
    ReachesTrans(env, Init(a), s8, t);
  }

  /** The copy fallback of the swap is not atomic: on a host without hard links a crash
      while `.prev` is being copied ends in a rollback to a file that is neither the
      first image nor a vetted one. */
  lemma CopySlotCanTear(env: Env, a: Image, v: Version, b: Image) returns (t: State)
    requires Vetted(env, b, v) && env.permits(env.stamp(a), v) && !Good(env, a, [])
    ensures Reaches(env, Init(a), t) && !t.hist.overlapped && !Good(env, a, t.disk.Content(Binary))
  {
    var s1 := ConfirmRun(env, Init(a));
    var s2 := StageRun(env, s1, v, b);
    var s4 := MarkRun(env, s2);
    var s5 := Go(env, s2, s4, SwapCopyOpen);
    assert s5.disk.dir == map[Binary := 0, Staged := 1, Previous := 2] && s5.disk.Content(Previous) == [];
    var s6 := Go(env, s2, s5, Crash);
    var s7 := LostStart(env, s6);
    t := RollbackRun(env, s7);
    ReachesTrans(env, Init(a), s1, s2);
    ReachesTrans(env, Init(a), s2, s6);
    ReachesTrans(env, Init(a), s6, s7);
    ReachesTrans(env, Init(a), s7, t);
  }

  /** An update that starts while a rollback of the same process is under way shares
      `.new` with it: the rollback empties the file after its pre-flight, and the swap
      installs the emptied file. */
  lemma OverlapCanTear(env: Env, a: Image, v: Version, b: Image, w: Version, c: Image) returns (t: State)
    requires Vetted(env, b, v) && Vetted(env, c, w) && !Good(env, a, [])
    requires env.permits(env.stamp(a), v) && env.permits(env.stamp(b), w)
    ensures Reaches(env, Init(a), t) && !t.hist.tore && !Good(env, a, t.disk.Content(Binary))
  {
    var s1 := ConfirmRun(env, Init(a));
    var s2 := StageRun(env, s1, v, b);
    var s3 := SwapRun(env, s2);
    assert s3.disk.dir == map[Binary := 1, Previous := 0];
    var s6 := LateDial(env, s3);
    var s7 := StageRun(env, s6, w, c);
    OneStep(env, s7, RollOpen);
    var s8 := Step(env, s7, RollOpen);
    assert s8 == s7.(disk := s7.disk.Open(Staged), roll := s8.roll);
    t := SwapRun(env, s8);
    assert t.disk.Content(Binary) == [];
    ReachesTrans(env, Init(a), s1, s2);
    ReachesTrans(env, Init(a), s2, s3);
    ReachesTrans(env, Init(a), s3, s6);
    ReachesTrans(env, Init(a), s6, s7);
    ReachesTrans(env, Init(a), s7, s8);
    ReachesTrans(env, Init(a), s8, t);
  }

  /** A start whose probation expires just before it dials home. */
  lemma LateDial(env: Env, s: State) returns (t: State)
    requires !s.up && Binary in s.disk.dir && s.disk.marker.Some? && s.disk.marker.value.attempts == 0
    ensures Reaches(env, s, t) && t.up && t.booted && t.dialed && t.roll.RollWanted? && t.upd.NoUpd?
    ensures t.running == s.disk.Content(Binary)
    ensures t.disk == s.disk.Mark(None) && t.hist == s.hist.(passes := t.hist.passes)
  {
    OneStep(env, s, Start);
    t := Go(env, s, Step(env, s, Start), Recover(true, true));
    t := Go(env, s, t, ProbationExpires);
    t := Go(env, s, t, DialHome(true));
  }
}
