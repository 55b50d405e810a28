/** The updater object of agent/updater, written as the source writes it: methods that
    perform one file operation after another on the host's disk.

    After every operation the object reports the event it just performed, and must show
    that its fields moved exactly as the step machine moves on that event. So the
    methods only ever pass through states the machine reaches, and what `SelfUpdate`
    proves of all event lists holds at every point inside them, not only between them. */
module Updater {
  import opened Common
  import opened SelfUpdate

  class Agent {
    const env: Env
    ghost const first: Image
    var disk: Disk
    var up: bool
    var booted: bool
    var running: Image
    var dialed: bool
    var armed: bool
    ghost var roll: Roll
    ghost var upd: Upd
    ghost var hist: History

    ghost function Now(): State
      reads this
    {
      State(disk, up, booted, running, dialed, armed, roll, upd, hist)
    }

    ghost predicate Valid()
      reads this
    {
      Reaches(env, Init(first), Now())
    }

    /** A freshly installed host. */
    constructor (env: Env, image: Image)
      ensures Valid() && !up && disk.Content(Binary) == image && this.env == env && first == image
    {
      this.env, first := env, image;
      disk, up, booted, running, dialed, armed := Init(image).disk, false, false, image, false, false;
      roll, upd, hist := NoRoll, NoUpd, Init(image).hist;
      new;
      OneStep(env, Init(image), Crash);
    }

    /** The object just moved from `was` by performing `e`. */
    lemma Log(was: State, e: Event)
      requires Reaches(env, Init(first), was) && Now() == Step(env, was, e)
      ensures Valid()
    {
      var _ := Go(env, Init(first), was, e);
    }

    /** The process ends here: by a crash, or by Exit. */
    method Die()
      requires Valid()
      modifies this
      ensures Valid() && !up && disk == old(disk) && hist == old(CutCopy(Now())) && roll.NoRoll? && upd.NoUpd?
    {
      ghost var at := Now();
      up, booted, dialed, armed := false, false, false, false;
      roll, upd, hist := NoRoll, NoUpd, CutCopy(at);
      Log(at, Crash);
    }

    /** The service manager starts whatever file is at the binary path. */
    method Boot()
      requires Valid() && !up && Binary in disk.dir
      modifies this
      ensures Valid() && up && !booted && disk == old(disk) && hist == old(hist)
      ensures running == disk.Content(Binary) && roll.NoRoll? && upd.NoUpd?
    {
      ghost var at := Now();
      up, booted, running, dialed, armed := true, false, disk.Content(Binary), false, false;
      roll, upd := NoRoll, NoUpd;
      Log(at, Start);
    }

    /** Recover: decide between rolling back, starting probation and an ordinary start. */
    method Recover(readable: bool, recorded: bool) returns (rollBack: bool)
      requires Valid() && up && !booted && roll.NoRoll?
      modifies this
      ensures Valid() && up && booted && dialed == old(dialed) && upd == old(upd)
      ensures rollBack <==> readable && old(disk).marker.Some? && old(disk).marker.value.attempts >= 1
      ensures rollBack <==> roll.RollWanted?
      ensures disk == if readable && recorded && !rollBack && old(disk).marker.Some?
                      then old(disk).Mark(Some(old(disk).marker.value.(attempts := old(disk).marker.value.attempts + 1)))
                      else old(disk)
      ensures armed <==> old(armed) || (readable && disk.marker.Some? && !rollBack)
    {
      ghost var at := Now();
      booted, rollBack := true, false;
      if readable && disk.marker.Some? {
        var m := disk.marker.value;
        if m.attempts >= MAX_ATTEMPTS {
          rollBack, roll := true, RollWanted;
        } else {
          if recorded {
            disk := disk.Mark(Some(m.(attempts := m.attempts + 1)));
            hist := hist.(passes := hist.passes + 1);
          }
          armed := true;
        }
      }
      Log(at, Event.Recover(readable, recorded));
    }

    /** The probation timer fires: a process that has not dialled home rolls back. */
    method ProbationExpired() returns (rollBack: bool)
      requires Valid() && up && booted && armed
      modifies this`armed, this`roll
      ensures Valid() && (rollBack <==> !dialed)
      ensures if rollBack then roll.RollWanted? else roll == old(roll)
    {
      ghost var at := Now();
      rollBack := !dialed;
      if rollBack {
        armed, roll := false, RollWanted;
      }
      Log(at, ProbationExpires);
    }

    /** DialedHome: only the first call of a process touches the marker. */
    method DialedHome(cleared: bool)
      requires Valid() && up && booted
      modifies this`dialed, this`disk
      ensures Valid() && dialed
      ensures disk == if !old(dialed) && cleared then old(disk).Mark(None) else old(disk)
    {
      ghost var at := Now();
      if !dialed {
        dialed := true;
        if cleared {
          disk := disk.Mark(None);
        }
      }
      Log(at, DialHome(cleared));
    }

    /** copyFile of a rollback: chunk by chunk into the freshly truncated `.new`. */
    method CopyPrevious(src: nat, fd: nat, chunk: nat)
      requires Valid() && up && booted && roll == RollCopying(src, fd) && fd != src && chunk > 0
      modifies this`disk, this`roll
      ensures Valid() && roll.RollStaged?
      ensures disk == old(disk).Write(fd, old(disk).Bytes(src))
    {
      hide Reaches; hide UpdStep;
      ghost var at := Now();
      ghost var was := disk;
      var source, n := disk.Bytes(src), 0;
      while n < |source|
        invariant Valid() && at == Now() && roll == RollCopying(src, fd) && n <= |source|
        invariant disk.data.Keys >= was.data.Keys && disk.Bytes(src) == source
        invariant disk == was || disk == was.Write(fd, source[..n])
      {
        n := if n + chunk <= |source| then n + chunk else |source|;
        disk := disk.Write(fd, source[..n]);
        Log(at, RollWrite(n));
        at := Now();
      }
      disk := disk.Write(fd, source);
      roll := RollStaged;
      Log(at, RollFinish);
    }

    /** The first half of rollback: look for the slot and truncate `.new`. */
    method OpenForRollback() returns (found: bool, src: nat, fd: nat)
      requires Valid() && up && booted && roll.RollWanted? && FilesSound(disk)
      modifies this`disk, this`roll, this`hist
      ensures Valid() && FilesSound(disk) && disk.marker == old(disk).marker
      ensures found <==> Previous in old(disk).dir
      ensures if found then roll == RollCopying(src, fd) && SameSlots(old(disk), disk) && Staged in disk.dir
                            && src == disk.dir[Previous] && fd == disk.dir[Staged]
              else roll.NoRoll? && disk == old(disk)
    {
      hide Reaches; hide UpdStep;
      ghost var at := Now();
      OpenStaged(disk);
      found, src, fd := Previous in disk.dir, 0, 0;
      if found {
        src, fd := disk.dir[Previous], disk.Handle(Staged);
        disk := disk.Open(Staged);
        roll, hist := RollCopying(src, fd), hist.(tore := hist.tore || hist.slotTorn);
      } else {
        roll := NoRoll;
      }
      Log(at, RollOpen);
    }

    /** rollback: put `.prev` back through `.new`. It fails, leaving the binary alone,
        when there is no slot or a file operation fails. */
    method Rollback(chunk: nat, copyOk: bool, renameOk: bool) returns (restored: bool)
      requires Valid() && up && booted && roll.RollWanted? && FilesSound(disk) && chunk > 0
      modifies this`disk, this`roll, this`hist
      ensures Valid() && disk.marker == old(disk).marker
      ensures restored <==> Previous in old(disk).dir && copyOk && renameOk
      ensures if restored then roll.RollRenamed? && disk.Content(Binary) == old(disk).Content(Previous)
              else roll.NoRoll? && disk.Content(Binary) == old(disk).Content(Binary)
      ensures disk.Content(Previous) == old(disk).Content(Previous)
    {
      hide Reaches; hide UpdStep;
      var found, src, fd := OpenForRollback();
      if !found {
        return false;
      }
      if !copyOk {
        ghost var at := Now();
        roll := NoRoll;
        Log(at, RollFail);
        return false;
      }
      WriteStaged(disk, disk.Bytes(src));
      CopyPrevious(src, fd, chunk);
      RestoreStaged(renameOk);
      restored := renameOk;
    }

    /** The rename that puts the slot's copy at the binary path. */
    method RestoreStaged(renameOk: bool)
      requires Valid() && up && booted && roll.RollStaged? && FilesSound(disk) && Staged in disk.dir
      modifies this`disk, this`roll
      ensures Valid() && disk.marker == old(disk).marker && disk.Content(Previous) == old(disk).Content(Previous)
      ensures if renameOk then roll.RollRenamed? && disk.Content(Binary) == old(disk).Content(Staged)
              else roll.NoRoll? && disk == old(disk)
    {
      hide Reaches; hide UpdStep;
      InstallStaged(disk);
      ghost var at := Now();
      if renameOk {
        disk := disk.Rename(Staged, Binary);
        roll := RollRenamed;
      } else {
        roll := NoRoll;
      }
      Log(at, RollRename(renameOk));
    }

    /** rollNow: after a successful rollback the marker is cleared before the process
        exits, so that the restored binary is not itself put on probation. */
    method RollNow(chunk: nat, copyOk: bool, renameOk: bool, clearOk: bool) returns (restored: bool)
      requires Valid() && up && booted && roll.RollWanted? && FilesSound(disk) && chunk > 0
      modifies this
      ensures Valid() && up == !restored
      ensures restored <==> Previous in old(disk).dir && copyOk && renameOk
      ensures disk.Content(Binary) == if restored then old(disk).Content(Previous) else old(disk).Content(Binary)
      ensures disk.marker == if restored && clearOk then None else old(disk).marker
    {
      hide Reaches; hide UpdStep;
      restored := Rollback(chunk, copyOk, renameOk);
      if restored {
        ghost var at := Now();
        if clearOk {
          disk := disk.Mark(None);
        }
        roll := RollCleared;
        Log(at, RollClear(clearOk));
        Die();
      }
    }

    /** One chunk of the body reaches the file and the running digest. */
    method WriteChunk(v: Version, streamed: Image, chunk: Image)
      requires Valid() && up && booted && FilesSound(disk) && Staged in disk.dir && disk.Content(Staged) == streamed
      requires upd == Downloading(v, disk.dir[Staged], streamed)
      modifies this`disk, this`upd
      ensures Valid() && SameSlots(old(disk), disk) && disk.marker == old(disk).marker && disk.dir == old(disk).dir
      ensures disk.Content(Staged) == streamed + chunk
      ensures upd == Downloading(v, disk.dir[Staged], streamed + chunk)
    {
      hide Reaches; hide RollStep;
      ghost var at := Now();
      var fd := disk.dir[Staged];
      WriteStaged(disk, streamed + chunk);
      disk := disk.Write(fd, disk.Bytes(fd) + chunk);
      upd := Downloading(v, fd, streamed + chunk);
      Log(at, UpdWrite(chunk));
    }

    /** The download half of stage: the body is streamed into a truncated `.new`. */
    method Download(v: Version, body: seq<Image>) returns (streamed: Image)
      requires Valid() && up && booted && dialed && upd.NoUpd? && FilesSound(disk)
      requires env.permits(env.stamp(running), v)
      modifies this`disk, this`upd, this`hist
      ensures Valid() && SameSlots(old(disk), disk) && disk.marker == old(disk).marker && hist == old(Begun(Now()))
      ensures streamed == Concat(body) && Staged in disk.dir && disk.Content(Staged) == streamed
      ensures upd == Downloading(v, disk.dir[Staged], streamed)
    {
      hide Reaches; hide RollStep;
      ghost var at, was := Now(), disk;
      OpenStaged(disk);
      upd := Downloading(v, disk.Handle(Staged), []);
      disk, hist := disk.Open(Staged), Begun(at);
      Log(at, UpdOpen(v));
      streamed := [];
      for i := 0 to |body|
        invariant Valid() && SameSlots(was, disk) && disk.marker == was.marker && hist == Begun(old(Now()))
        invariant Staged in disk.dir && disk.Content(Staged) == streamed && streamed == Concat(body[..i])
        invariant upd == Downloading(v, disk.dir[Staged], streamed)
      {
        WriteChunk(v, streamed, body[i]);
        streamed := streamed + body[i];
        assert body[..i + 1][..i] == body[..i];
      }
      assert body[..|body|] == body;
    }

    /** The error paths of update: remove the staged file, and once the marker is down take
        it back too. Either removal may fail. */
    method GiveUp(marked: bool, clearOk: bool, removeOk: bool)
      requires Valid() && up && booted && !upd.NoUpd? && !upd.Swapped? && FilesSound(disk)
      requires marked == (upd.Marked? || upd.Emptied? || upd.Copying? || upd.Kept?)
      modifies this`disk, this`upd, this`hist
      ensures Valid() && upd.NoUpd? && SameSlots(old(disk), disk) && hist == old(CutCopy(Now()))
      ensures removeOk ==> Staged !in disk.dir
      ensures disk.marker == if clearOk && marked then None else old(disk).marker
    {
      hide Reaches; hide RollStep;
      ghost var at := Now();
      UnlinkStaged(disk);
      hist := CutCopy(at);
      if clearOk && marked {
        disk := disk.Mark(None);
      }
      if removeOk {
        disk := disk.Unlink(Staged);
      }
      upd := NoUpd;
      Log(at, UpdFail(clearOk, removeOk));
    }

    /** stage and preflight: the staged file is kept only if every write succeeded, the
        streamed bytes have the listed digest and the file then reports the wanted version. */
    method Stage(v: Version, body: seq<Image>, io: Io) returns (ok: bool)
      requires Valid() && up && booted && dialed && upd.NoUpd? && FilesSound(disk)
      requires env.permits(env.stamp(running), v)
      modifies this`disk, this`upd, this`hist
      ensures Valid() && SameSlots(old(disk), disk) && disk.marker == old(disk).marker && hist == old(Begun(Now()))
      ensures ok <==> io.writeOk && Vetted(env, Concat(body), v)
      ensures if ok then upd == Preflighted(v) && Staged in disk.dir && disk.Content(Staged) == Concat(body)
              else upd.NoUpd? && (io.removeOk ==> Staged !in disk.dir)
    {
      hide Reaches; hide RollStep;
      var streamed := Download(v, body);
      if !io.writeOk || env.digest(streamed) != env.listed(v) {
        GiveUp(false, io.clearOk, io.removeOk);
        return false;
      }
      ghost var at := Now();
      upd := Verified(v);
      Log(at, UpdVerify);
      ok := Preflight(v, io);
    }

    /** preflight: the staged file must report the wanted version, or it is removed. */
    method Preflight(v: Version, io: Io) returns (ok: bool)
      requires Valid() && up && booted && upd == Verified(v) && FilesSound(disk) && Staged in disk.dir
      modifies this`disk, this`upd, this`hist
      ensures Valid() && SameSlots(old(disk), disk) && disk.marker == old(disk).marker && hist == old(hist)
      ensures ok == env.reports(old(disk).Content(Staged), v)
      ensures if ok then upd == Preflighted(v) && disk == old(disk) else upd.NoUpd? && (io.removeOk ==> Staged !in disk.dir)
    {
      hide Reaches; hide RollStep;
      ok := env.reports(disk.Content(Staged), v);
      if ok {
        ghost var at := Now();
        upd := Preflighted(v);
        Log(at, UpdPreflight);
      } else {
        GiveUp(false, io.clearOk, io.removeOk);
      }
    }

    /** The marker goes down before anything is renamed. */
    method WriteMarker(v: Version)
      requires Valid() && up && booted && upd == Preflighted(v)
      modifies this`disk, this`upd, this`hist
      ensures Valid() && upd == Marked(v) && disk == old(disk).Mark(Some(Marker(v, env.stamp(running), 0)))
      ensures old(Regular(Now())) ==> Regular(Now())
    {
      hide Reaches; hide RollStep;
      ghost var at := Now();
      ghost var slot := if Previous in disk.dir then Some(disk.Content(Previous)) else None;
      disk := disk.Mark(Some(Marker(v, env.stamp(running), 0)));
      upd := Marked(v);
      hist := hist.(before := running, relinked := false, passes := 0, slotAtMark := slot);
      Log(at, UpdMark);
    }

    /** Then the old slot is emptied. */
    method EmptySlot(v: Version)
      requires Valid() && up && booted && upd == Marked(v)
      modifies this`disk, this`upd, this`hist
      ensures Valid() && upd == Emptied(v) && disk == old(disk).Unlink(Previous)
      ensures old(Regular(Now())) ==> Regular(Now())
    {
      hide Reaches; hide RollStep;
      ghost var at := Now();
      disk := disk.Unlink(Previous);
      upd := Emptied(v);
      hist := hist.(slotTorn := false);
      Log(at, SwapRemove);
    }

    /** Keep the running binary in the slot by a hard link. */
    method LinkSlot(v: Version)
      requires Valid() && up && booted && upd == Emptied(v)
      modifies this`disk, this`upd, this`hist
      ensures Valid() && upd == Kept(v) && disk == old(disk).Link(Binary, Previous)
      ensures old(Regular(Now())) ==> Regular(Now())
    {
      hide Reaches; hide RollStep;
      ghost var at := Now();
      disk := disk.Link(Binary, Previous);
      upd := Kept(v);
      hist := hist.(relinked := true);
      Log(at, SwapLink);
    }

    /** The fallback opens the slot, which empties it. */
    method OpenSlot(v: Version)
      requires Valid() && up && booted && upd == Emptied(v) && FilesSound(disk) && Previous !in disk.dir
      modifies this`disk, this`upd
      ensures Valid() && upd == Copying(v, old(disk).dir[Binary], old(disk).next) && disk == old(disk).Open(Previous)
      ensures disk.Bytes(disk.dir[Binary]) == old(disk).Content(Binary) && disk.dir[Binary] == old(disk).dir[Binary]
    {
      hide Reaches; hide RollStep;
      ghost var at := Now();
      upd := Copying(v, disk.dir[Binary], disk.next);
      disk := disk.Open(Previous);
      Log(at, SwapCopyOpen);
    }

    /** ... and copies the binary into it; `n` bytes are on disk when the copy fails. */
    method FillSlot(v: Version, src: nat, fd: nat, n: nat, copyOk: bool)
      requires Valid() && up && booted && upd == Copying(v, src, fd)
      modifies this`disk, this`upd, this`hist
      ensures Valid() && upd == if copyOk then Kept(v) else Copying(v, src, fd)
      ensures disk == old(disk).Write(fd, if copyOk then old(disk).Bytes(src) else Take(old(disk).Bytes(src), n))
      ensures old(Regular(Now())) ==> Regular(Now())
    {
      hide Reaches; hide RollStep;
      ghost var at := Now();
      if copyOk {
        disk := disk.Write(fd, disk.Bytes(src));
        upd := Kept(v);
        hist := hist.(relinked := true);
        Log(at, SwapCopyFinish);
      } else {
        disk := disk.Write(fd, Take(disk.Bytes(src), n));
        Log(at, SwapCopyWrite(n));
      }
    }

    /** copyFile of a swap. */
    method CopySlot(v: Version, n: nat, copyOk: bool)
      requires Valid() && up && booted && upd == Emptied(v) && FilesSound(disk) && Previous !in disk.dir
      modifies this`disk, this`upd, this`hist
      ensures Valid() && upd == if copyOk then Kept(v) else Copying(v, old(disk).dir[Binary], old(disk).next)
      ensures disk == old(disk).Open(Previous).Write(old(disk).next, if copyOk then old(disk).Content(Binary)
                                                                     else Take(old(disk).Content(Binary), n))
      ensures old(Regular(Now())) ==> Regular(Now())
    {
      hide Reaches;
      var src, fd := disk.dir[Binary], disk.next;
      OpenSlot(v);
      FillSlot(v, src, fd, n, copyOk);
    }

    /** The two ways of refilling the slot, in the source's order. */
    method KeepPrevious(v: Version, io: Io) returns (kept: bool)
      requires Valid() && up && booted && upd == Emptied(v) && FilesSound(disk) && Previous !in disk.dir
      modifies this`disk, this`upd, this`hist
      ensures Valid() && kept == (io.linkOk || io.copyOk) && FilesSound(disk) && disk.marker == old(disk).marker
      ensures disk.Content(Binary) == old(disk).Content(Binary) && disk.Content(Staged) == old(disk).Content(Staged)
      ensures Staged in disk.dir <==> Staged in old(disk).dir
      ensures if kept then upd == Kept(v) && Previous in disk.dir && disk.Content(Previous) == disk.Content(Binary)
              else upd.Copying?
      ensures old(Regular(Now())) ==> Regular(Now())
    {
      hide Reaches; hide RollStep;
      if io.linkOk {
        LinkSlot(v);
        return true;
      }
      CopySlot(v, io.copied, io.copyOk);
      kept := io.copyOk;
    }

    /** swap: `.prev` becomes the running binary and the binary path becomes the staged
        file, with no moment at which the binary path is empty. A failure leaves the binary
        alone and the update to be given up. */
    method Swap(v: Version, io: Io) returns (ok: bool)
      requires Valid() && up && booted && upd == Marked(v) && FilesSound(disk) && Staged in disk.dir
      modifies this`disk, this`upd, this`hist
      ensures Valid() && ok == Swaps(io) && FilesSound(disk) && disk.marker == old(disk).marker
      ensures ok ==> upd == Swapped(v) && Staged !in disk.dir && disk.Content(Binary) == old(disk).Content(Staged)
      ensures ok ==> Previous in disk.dir && disk.Content(Previous) == old(disk).Content(Binary)
      ensures !ok ==> (upd.Marked? || upd.Copying? || upd.Kept?) && disk.Content(Binary) == old(disk).Content(Binary)
      ensures old(Regular(Now())) ==> Regular(Now())
    {
      hide Reaches; hide RollStep;
      if !io.slotOk {
        return false;
      }
      WithoutSlot(disk);
      EmptySlot(v);
      ok := KeepPrevious(v, io);
      if ok && !io.renameOk {
        ok := false;
      } else if ok {
        Install(v);
      }
    }

    method Install(v: Version)
      requires Valid() && up && booted && upd == Kept(v) && FilesSound(disk) && Staged in disk.dir
      modifies this`disk, this`upd
      ensures Valid() && upd == Swapped(v) && Staged !in disk.dir && FilesSound(disk) && disk.marker == old(disk).marker
      ensures disk.Content(Binary) == old(disk).Content(Staged) && disk.Content(Previous) == old(disk).Content(Previous)
      ensures Previous in disk.dir <==> Previous in old(disk).dir
    {
      hide Reaches; hide RollStep;
      ghost var at := Now();
      InstallStaged(disk);
      disk := disk.Rename(Staged, Binary);
      upd := Swapped(v);
      Log(at, SwapRename);
    }

    /** What the whole-run theorems say of this object at any moment. */
    lemma Safe()
      requires Valid()
      ensures FilesSound(disk) && (Regular(Now()) ==> Good(env, first, disk.Content(Binary)))
    {
      ReachesByEvents(env, Init(first), Now());
      var events :| Exec(env, Init(first), events) == Now();
      FilesAlways(env, first, events);
      RunSound(env, first, events);
    }

    /** Marker and swap, once the staged file is vetted; what fails is given up. */
    method MarkAndSwap(v: Version, io: Io) returns (installed: bool)
      requires Valid() && up && booted && upd == Preflighted(v) && FilesSound(disk) && Staged in disk.dir
      modifies this`disk, this`upd, this`hist
      ensures Valid() && installed == (io.markOk && Swaps(io)) && FilesSound(disk)
      ensures if installed then upd.Swapped? && disk.marker == Some(Marker(v, env.stamp(running), 0))
                                && disk.Content(Binary) == old(disk).Content(Staged)
                                && disk.Content(Previous) == old(disk).Content(Binary)
              else upd.NoUpd? && disk.Content(Binary) == old(disk).Content(Binary)
                   && (disk.marker == old(disk).marker || disk.marker == None || !io.clearOk)
      ensures !io.markOk ==> SameSlots(old(disk), disk) && disk.marker == old(disk).marker
      ensures old(Regular(Now())) ==> Regular(Now())
    {
      hide Reaches; hide RollStep; hide SameSlots; hide FilesSound;
      if !io.markOk {
        GiveUp(false, io.clearOk, io.removeOk);
        SlotsFacts(old(disk), disk);
        return false;
      }
      MarkSame(disk, Some(Marker(v, env.stamp(running), 0)));
      WriteMarker(v);
      installed := Swap(v, io);
      if !installed {
        ghost var failed := disk;
        GiveUp(true, io.clearOk, io.removeOk);
        SlotsFacts(failed, disk);
      }
    }

    /** Apply and update, from the guard to the exit. The new binary is installed exactly
        when the running build permits the version, the artifact is vetted and every file
        operation needed succeeds; otherwise the binary path is as it was. An artifact that
        is refused before the marker changes neither slot nor marker. Begun outside a
        rollback the run stays regular and the binary good. */
    method Update(v: Version, body: seq<Image>, io: Io) returns (installed: bool)
      requires Valid() && up && booted && dialed && upd.NoUpd?
      modifies this
      ensures Valid() && up == !installed
      ensures installed <==>
                env.permits(env.stamp(old(running)), v) && io.writeOk && Vetted(env, Concat(body), v) && io.markOk && Swaps(io)
      ensures installed ==> disk.Content(Binary) == Concat(body)
      ensures installed ==> disk.Content(Previous) == old(disk).Content(Binary)
      ensures installed ==> disk.marker == Some(Marker(v, env.stamp(old(running)), 0))
      ensures !installed ==> disk.Content(Binary) == old(disk).Content(Binary)
      ensures !installed && io.clearOk ==> disk.marker == old(disk).marker || disk.marker == None
      ensures !(env.permits(env.stamp(old(running)), v) && io.writeOk && Vetted(env, Concat(body), v)) ==>
                SameSlots(old(disk), disk) && disk.marker == old(disk).marker
      ensures old(Regular(Now()) && roll.NoRoll?) ==> Regular(Now()) && Good(env, first, disk.Content(Binary))
    {
      Safe();
      hide Good; hide SameSlots; hide FilesSound; hide Vetted;
      installed := false;
      if env.permits(env.stamp(running), v) {
        var staged := Stage(v, body, io);
        SlotsFacts(old(disk), disk);
        if staged {
          installed := MarkAndSwap(v, io);
          if installed {
            Die();
          }
        }
      } else {
        SlotsSame(disk);
      }
      Safe();
    }
  }

  /** The file operations of swap that must succeed. */
  predicate Swaps(io: Io) { io.slotOk && (io.linkOk || io.copyOk) && io.renameOk }

  /** Beginning an update during a rollback is remembered. */
  function Begun(s: State): History { s.hist.(overlapped := s.hist.overlapped || s.roll != NoRoll) }

  /** Which file operations of an update succeed, and how much of a failed copy was written. */
  datatype Io = Io(writeOk: bool, markOk: bool, slotOk: bool, linkOk: bool, copyOk: bool, copied: nat, renameOk: bool,
                   clearOk: bool, removeOk: bool)

  lemma SlotsFacts(d: Disk, d': Disk)
    requires SameSlots(d, d')
    ensures FilesSound(d') && d'.Content(Binary) == d.Content(Binary)
  {
  }

  lemma SlotsSame(d: Disk)
    requires FilesSound(d)
    ensures SameSlots(d, d)
  {
  }

  lemma WithoutSlot(d: Disk)
    requires FilesSound(d)
    ensures var e := d.Unlink(Previous);
            FilesSound(e) && Previous !in e.dir && e.Content(Binary) == d.Content(Binary) && e.Content(Staged) == d.Content(Staged)
  {
  }

  lemma MarkSame(d: Disk, m: Option<Marker>)
    requires FilesSound(d)
    ensures var e := d.Mark(m);
            FilesSound(e) && e.Content(Binary) == d.Content(Binary) && e.Content(Staged) == d.Content(Staged) && e.dir == d.dir
  {
  }

  function Concat(chunks: seq<Image>): Image {
    if chunks == [] then [] else Concat(chunks[..|chunks| - 1]) + chunks[|chunks| - 1]
  }
}
