/** The agent's identity directory and its in-memory keeper (agent/identity).

    Every write goes to a temporary file and is renamed into place, so a write is two
    file operations of which only the second is visible under the real name. A process
    can stop between any two operations: each operation below is given as the list of
    directory states it passes through, and may be cut at any of them. */
module IdentityStore {
  import opened Common

  /** PEM text. */
  type Pem = seq<nat>

  const CERT_FILE := "agent-cert.pem"
  const KEY_FILE := "agent-key.pem"
  const ALT_CERT_FILE := "agent-cert.1.pem"
  const ALT_KEY_FILE := "agent-key.1.pem"
  const CA_FILE := "ca.pem"
  const META_FILE := "identity.json"

  datatype Meta = Meta(serverId: string, natsUrl: string, planeAddr: string, certFile: string, keyFile: string)

  /** identity.json is kept parsed; everything else is a file by name. */
  datatype Dir = Dir(files: map<string, Pem>, meta: Option<Meta>)

  datatype Pair = Pair(cert: Pem, key: Pem)

  datatype Identity = Identity(serverId: string, natsUrl: string, planeAddr: string, pair: Pair, ca: Pem)

  /** The material identity.json names; empty names mean the original ones. */
  function Files(m: Meta): (string, string) {
    (if m.certFile == "" then CERT_FILE else m.certFile, if m.keyFile == "" then KEY_FILE else m.keyFile)
  }

  /** The slot not in use. */
  function AltOf(cert: string, key: string): (string, string) {
    if cert == CERT_FILE && key == KEY_FILE then (ALT_CERT_FILE, ALT_KEY_FILE) else (CERT_FILE, KEY_FILE)
  }

  function Load(d: Dir): Option<Identity> {
    if d.meta.None? then None
    else
      var (cert, key) := Files(d.meta.value);
      if cert !in d.files || key !in d.files || CA_FILE !in d.files then None
      else
        var m := d.meta.value;
        Some(Identity(m.serverId, m.natsUrl, m.planeAddr, Pair(d.files[cert], d.files[key]), d.files[CA_FILE]))
  }

  /** identity.json names a wholly primary or wholly alternate slot, and its files exist. */
  ghost predicate Whole(d: Dir) {
    && d.meta.Some?
    && var names := Files(d.meta.value);
       && (names == (CERT_FILE, KEY_FILE) || names == (ALT_CERT_FILE, ALT_KEY_FILE))
       && names.0 in d.files && names.1 in d.files && CA_FILE in d.files
  }

  ghost predicate Primary(d: Dir) {
    d.meta.Some? && Files(d.meta.value) == (CERT_FILE, KEY_FILE)
  }

  // ----------------------------------------------------------- file operations

  /** The temporary file, holding whatever part of the data had reached it. */
  function Scratch(d: Dir, path: string, torn: Pem): Dir {
    d.(files := d.files[path + ".tmp" := torn])
  }

  function Put(d: Dir, path: string, data: Pem): Dir {
    d.(files := (d.files - {path + ".tmp"})[path := data])
  }

  /** A best-effort removal; `done` says whether it took effect. */
  function Drop(d: Dir, path: string, done: bool): Dir {
    if done then d.(files := d.files - {path}) else d
  }

  /** One renewal: the new pair, the contents of half-written temporary files, which
      removals took effect, and how many file operations were performed in all. */
  datatype Rotation = Rotation(cert: Pem, key: Pem, torn: Pem, dropKey: bool, dropCert: bool, steps: nat)

  /** The operation that renames identity.json is the sixth of eight. */
  const COMMIT: nat := 6

  /** The first five operations: key and certificate into the free slot, and the
      temporary file for identity.json. */
  function StageTrail(d: Dir, cert: string, key: string, r: Rotation): seq<Dir> {
    var d1 := Scratch(d, key, r.torn);
    var d2 := Put(d1, key, r.key);
    var d3 := Scratch(d2, cert, r.torn);
    var d4 := Put(d3, cert, r.cert);
    var d5 := Scratch(d4, META_FILE, r.torn);
    [d, d1, d2, d3, d4, d5]
  }

  /** The directory after 0, 1, ..., 8 operations of Rotate. */
  function RotateTrail(d: Dir, r: Rotation): seq<Dir>
    requires d.meta.Some?
  {
    var (cert, key) := Files(d.meta.value);
    var (newCert, newKey) := AltOf(cert, key);
    var staged := StageTrail(d, newCert, newKey, r);
    var d6 := staged[5].(files := staged[5].files - {META_FILE + ".tmp"},
                         meta := Some(d.meta.value.(certFile := newCert, keyFile := newKey)));
    var d7 := Drop(d6, key, r.dropKey);
    var d8 := Drop(d7, cert, r.dropCert);
    staged + [d6, d7, d8]
  }

  /** Rotate, cut after `r.steps` operations. It refuses empty material and a directory
      without identity.json. */
  function Rotate(d: Dir, r: Rotation): Dir {
    if r.cert == [] || r.key == [] || d.meta.None? then d
    else RotateTrail(d, r)[if r.steps < 8 then r.steps else 8]
  }

  function Committed(r: Rotation): bool {
    r.cert != [] && r.key != [] && r.steps >= COMMIT
  }

  /** A file Load does not read: not a name of the slot in use, not the CA. */
  ghost predicate Unread(d: Dir, path: string) {
    Whole(d) && path != CA_FILE && path != Files(d.meta.value).0 && path != Files(d.meta.value).1
  }

  /** Load cannot tell the two directories apart. */
  ghost predicate Quiet(d: Dir, e: Dir) {
    e.meta == d.meta && Whole(e) && Load(e) == Load(d) && Load(d).Some?
  }

  lemma UnreadScratch(d: Dir, path: string, data: Pem)
    requires Unread(d, path + ".tmp")
    ensures Quiet(d, Scratch(d, path, data))
  {
  }

  lemma UnreadPut(d: Dir, path: string, data: Pem)
    requires Unread(d, path) && Unread(d, path + ".tmp")
    ensures Quiet(d, Put(d, path, data))
  {
  }

  lemma UnreadDrop(d: Dir, path: string, done: bool)
    requires Unread(d, path)
    ensures Quiet(d, Drop(d, path, done))
  {
  }

  /** Neither a file of the free slot nor any temporary file is ever read. */
  lemma FreeSlotUnread(d: Dir)
    requires Whole(d)
    ensures var free := AltOf(Files(d.meta.value).0, Files(d.meta.value).1);
            && Unread(d, free.0) && Unread(d, free.1) && Unread(d, free.0 + ".tmp") && Unread(d, free.1 + ".tmp")
            && Unread(d, META_FILE) && Unread(d, META_FILE + ".tmp")
            && free.0 + ".tmp" != free.1 && free.1 + ".tmp" != free.0 && free.0 != free.1
            && free.0 != META_FILE + ".tmp" && free.1 != META_FILE + ".tmp"
            && free.0 != CA_FILE && free.1 != CA_FILE && META_FILE + ".tmp" != CA_FILE
  {
  }

  /** Before the commit nothing Load reads has changed, and the new pair builds up in
      the free slot. */
  lemma StageUnread(d: Dir, cert: string, key: string, r: Rotation)
    requires Unread(d, cert) && Unread(d, key) && Unread(d, META_FILE)
    requires Unread(d, cert + ".tmp") && Unread(d, key + ".tmp") && Unread(d, META_FILE + ".tmp")
    requires cert + ".tmp" != key && key + ".tmp" != cert && cert != key
    requires cert != META_FILE + ".tmp" && key != META_FILE + ".tmp"
    ensures |StageTrail(d, cert, key, r)| == 6
    ensures forall n :: 0 <= n < 6 ==> Quiet(d, StageTrail(d, cert, key, r)[n])
    ensures var e := StageTrail(d, cert, key, r)[5];
            cert in e.files && key in e.files && e.files[cert] == r.cert && e.files[key] == r.key
  {
    assert Quiet(d, d);
    StagedFiles(d, cert, key, r);
    var trail := StageTrail(d, cert, key, r);
    hide Load; hide Whole; hide Files; hide Scratch; hide Put; hide Unread; hide Quiet;
    UnreadScratch(d, key, r.torn);
    UnreadMoves(d, trail[1], key);
    UnreadPut(trail[1], key, r.key);
    QuietThen(d, trail[1], trail[2]);
    UnreadMoves(d, trail[2], cert);
    UnreadScratch(trail[2], cert, r.torn);
    QuietThen(d, trail[2], trail[3]);
    UnreadMoves(d, trail[3], cert);
    UnreadPut(trail[3], cert, r.cert);
    QuietThen(d, trail[3], trail[4]);
    UnreadMoves(d, trail[4], META_FILE);
    UnreadScratch(trail[4], META_FILE, r.torn);
    QuietThen(d, trail[4], trail[5]);
  }

  lemma UnreadMoves(d: Dir, e: Dir, path: string)
    requires Quiet(d, e) && Unread(d, path) && Unread(d, path + ".tmp")
    ensures Unread(e, path) && Unread(e, path + ".tmp")
  {
  }

  lemma QuietThen(d: Dir, e: Dir, f: Dir)
    requires Quiet(d, e) && Quiet(e, f)
    ensures Quiet(d, f)
  {
  }

  lemma StagedFiles(d: Dir, cert: string, key: string, r: Rotation)
    requires cert + ".tmp" != key && key + ".tmp" != cert && cert != key
    requires cert != META_FILE + ".tmp" && key != META_FILE + ".tmp"
    ensures var e := StageTrail(d, cert, key, r)[5];
            cert in e.files && key in e.files && e.files[cert] == r.cert && e.files[key] == r.key
  {
  }

  lemma RotateBeforeCommit(d: Dir, r: Rotation)
    requires Whole(d)
    ensures forall n :: 0 <= n < COMMIT ==> Quiet(d, RotateTrail(d, r)[n])
    ensures var free := AltOf(Files(d.meta.value).0, Files(d.meta.value).1);
            var e := RotateTrail(d, r)[5];
            free.0 in e.files && free.1 in e.files && e.files[free.0] == r.cert && e.files[free.1] == r.key
  {
    FreeSlotUnread(d);
    hide Load; hide Whole; hide Unread; hide StageTrail; hide Quiet;
    var free := AltOf(Files(d.meta.value).0, Files(d.meta.value).1);
    StageUnread(d, free.0, free.1, r);
    var staged := StageTrail(d, free.0, free.1, r);
    assert forall n :: 0 <= n < COMMIT ==> RotateTrail(d, r)[n] == staged[n];
  }

  /** From the commit on Load reads the new pair, whether or not the old one is removed. */
  lemma RotateAfterCommit(d: Dir, r: Rotation)
    requires Whole(d)
    ensures forall n :: COMMIT <= n <= 8 ==>
              var e := RotateTrail(d, r)[n];
              Whole(e) && Load(e) == Some(Load(d).value.(pair := Pair(r.cert, r.key)))
  {
    RotateBeforeCommit(d, r);
    FreeSlotUnread(d);
    var trail := RotateTrail(d, r);
    var free := AltOf(Files(d.meta.value).0, Files(d.meta.value).1);
    assert trail[6] == trail[5].(files := trail[5].files - {META_FILE + ".tmp"},
                                 meta := Some(d.meta.value.(certFile := free.0, keyFile := free.1)));
    assert trail[7] == Drop(trail[6], Files(d.meta.value).1, r.dropKey);
    assert trail[8] == Drop(trail[7], Files(d.meta.value).0, r.dropCert);
    hide RotateTrail;
    CommitLoads(d, trail[5], trail[6], Pair(r.cert, r.key));
    FreeSlotUnread(trail[6]);
    hide Load;
    UnreadDrop(trail[6], Files(d.meta.value).1, r.dropKey);
    UnreadDrop(trail[7], Files(d.meta.value).0, r.dropCert);
  }

  /** The rename of identity.json makes the free slot the one in use. */
  lemma CommitLoads(d: Dir, staged: Dir, e: Dir, pair: Pair)
    requires Whole(d) && Quiet(d, staged)
    requires var free := AltOf(Files(d.meta.value).0, Files(d.meta.value).1);
             && free.0 in staged.files && free.1 in staged.files
             && staged.files[free.0] == pair.cert && staged.files[free.1] == pair.key
             && e == staged.(files := staged.files - {META_FILE + ".tmp"},
                             meta := Some(d.meta.value.(certFile := free.0, keyFile := free.1)))
    ensures Whole(e) && Load(e) == Some(Load(d).value.(pair := pair))
    ensures AltOf(Files(e.meta.value).0, Files(e.meta.value).1) == Files(d.meta.value)
  {
    FreeSlotUnread(d);
  }

  /** A rotation cut anywhere leaves a whole slot, which is the old one exactly when the
      cut came before the rename of identity.json. */
  lemma RotateIsAtomic(d: Dir, r: Rotation)
    requires Whole(d)
    ensures Whole(Rotate(d, r))
    ensures var was, now := Load(d).value, Load(Rotate(d, r));
            now == Some(if Committed(r) then was.(pair := Pair(r.cert, r.key)) else was)
  {
    assert Load(d).Some?;
    hide RotateTrail; hide Load; hide Whole;
    RotateBeforeCommit(d, r);
    RotateAfterCommit(d, r);
  }

  /** Load reads exactly the files identity.json names, and where it names none, as every
      identity written before renewal existed, the original ones. */
  lemma LoadReads(d: Dir)
    ensures Load(d).Some? <==>
            && d.meta.Some? && "ca.pem" in d.files
            && (if d.meta.value.certFile == "" then "agent-cert.pem" else d.meta.value.certFile) in d.files
            && (if d.meta.value.keyFile == "" then "agent-key.pem" else d.meta.value.keyFile) in d.files
    ensures Load(d).Some? && d.meta.value.certFile == "" ==> Load(d).value.pair.cert == d.files["agent-cert.pem"]
    ensures Load(d).Some? && d.meta.value.keyFile == "" ==> Load(d).value.pair.key == d.files["agent-key.pem"]
    ensures Load(d).Some? && d.meta.value.certFile != "" ==> Load(d).value.pair.cert == d.files[d.meta.value.certFile]
    ensures Load(d).Some? && d.meta.value.keyFile != "" ==> Load(d).value.pair.key == d.files[d.meta.value.keyFile]
    ensures Load(d).Some? ==> Load(d).value.ca == d.files["ca.pem"]
  {
  }

  /** A committed rotation moves to the other slot, and its files are there in full. */
  lemma SlotsAlternate(d: Dir, r: Rotation)
    requires Whole(d) && Committed(r)
    ensures var e := Rotate(d, r);
            && e.meta.Some?
            && e.meta.value == d.meta.value.(certFile := if Primary(d) then "agent-cert.1.pem" else "agent-cert.pem",
                                             keyFile := if Primary(d) then "agent-key.1.pem" else "agent-key.pem")
            && e.meta.value.certFile in e.files && e.files[e.meta.value.certFile] == r.cert
            && e.meta.value.keyFile in e.files && e.files[e.meta.value.keyFile] == r.key
  {
    RotateIsAtomic(d, r);
    var e := Rotate(d, r);
    assert e.meta == Some(d.meta.value.(certFile := AltOf(Files(d.meta.value).0, Files(d.meta.value).1).0,
                                        keyFile := AltOf(Files(d.meta.value).0, Files(d.meta.value).1).1)) by {
      hide Whole; hide Load; hide StageTrail;
    }
    LoadReads(e);
    hide Rotate; hide Load;
  }

  function RotateAll(d: Dir, rs: seq<Rotation>): Dir {
    if rs == [] then d else Rotate(RotateAll(d, rs[..|rs| - 1]), rs[|rs| - 1])
  }

  /** The pair of the last rotation that got as far as its commit. */
  function LastCommitted(first: Pair, rs: seq<Rotation>): Pair {
    if rs == [] then first
    else
      var r := rs[|rs| - 1];
      if Committed(r) then Pair(r.cert, r.key) else LastCommitted(first, rs[..|rs| - 1])
  }

  /** After any number of rotations, each cut anywhere, Load returns the enrolled
      coordinates with exactly the last committed pair. */
  lemma {:induction false} AnyRotations(d: Dir, rs: seq<Rotation>)
    requires Whole(d)
    ensures Whole(RotateAll(d, rs))
    ensures var was := Load(d).value; Load(RotateAll(d, rs)) == Some(was.(pair := LastCommitted(was.pair, rs)))
  {
    if rs != [] {
      AnyRotations(d, rs[..|rs| - 1]);
      RotateIsAtomic(RotateAll(d, rs[..|rs| - 1]), rs[|rs| - 1]);
    }
  }

  /** The first seven operations of Save: the primary slot, the CA, and the temporary file
      for identity.json. */
  function SaveStages(d: Dir, id: Identity, torn: Pem): seq<Dir> {
    var d1 := Scratch(d, KEY_FILE, torn);
    var d2 := Put(d1, KEY_FILE, id.pair.key);
    var d3 := Scratch(d2, CERT_FILE, torn);
    var d4 := Put(d3, CERT_FILE, id.pair.cert);
    var d5 := Scratch(d4, CA_FILE, torn);
    var d6 := Put(d5, CA_FILE, id.ca);
    var d7 := Scratch(d6, META_FILE, torn);
    [d, d1, d2, d3, d4, d5, d6, d7]
  }

  /** Save: then identity.json is renamed into place and the alternate slot is removed, if
      the removals take effect; the states after 0, 1, ..., 10 operations. */
  function SaveTrail(d: Dir, id: Identity, torn: Pem, dropKey: bool, dropCert: bool): seq<Dir> {
    var staged := SaveStages(d, id, torn);
    var d8 := staged[7].(files := staged[7].files - {META_FILE + ".tmp"},
                         meta := Some(Meta(id.serverId, id.natsUrl, id.planeAddr, CERT_FILE, KEY_FILE)));
    var d9 := Drop(d8, ALT_KEY_FILE, dropKey);
    var d10 := Drop(d9, ALT_CERT_FILE, dropCert);
    staged + [d8, d9, d10]
  }

  const SAVE_COMMIT: nat := 8

  /** What Load reads when Save over an identity is cut after `steps` operations. */
  function Midway(was: Identity, primary: bool, id: Identity, steps: nat): Identity {
    if steps >= SAVE_COMMIT then id
    else
      was.(ca := if steps >= 6 then id.ca else was.ca,
           pair := if !primary then was.pair
                   else Pair(if steps >= 4 then id.pair.cert else was.pair.cert, if steps >= 2 then id.pair.key else was.pair.key))
  }

  /** The temporary files are none of the files that are read. */
  lemma TempNames(path: string)
    requires path == KEY_FILE || path == CERT_FILE || path == CA_FILE || path == META_FILE
    ensures var t := path + ".tmp";
            t != KEY_FILE && t != CERT_FILE && t != CA_FILE && t != ALT_KEY_FILE && t != ALT_CERT_FILE
  {
    assert (path + ".tmp")[|path| + 1] == 't' && (path + ".tmp")[|path| + 2] == 'm';
  }

  /** The five files Load can read. */
  ghost predicate Reads(d: Dir, e: Dir) {
    e.meta == d.meta
    && SameFile(d, e, KEY_FILE) && SameFile(d, e, CERT_FILE) && SameFile(d, e, CA_FILE)
    && SameFile(d, e, ALT_KEY_FILE) && SameFile(d, e, ALT_CERT_FILE)
  }

  predicate SameFile(d: Dir, e: Dir, path: string) {
    (path in e.files <==> path in d.files) && (path in d.files ==> e.files[path] == d.files[path])
  }

  lemma ScratchUnseen(d: Dir, path: string, torn: Pem)
    requires path == KEY_FILE || path == CERT_FILE || path == CA_FILE || path == META_FILE
    ensures Reads(d, Scratch(d, path, torn))
  {
    TempNames(path);
  }

  lemma PutSeen(d: Dir, path: string, data: Pem)
    requires path == KEY_FILE || path == CERT_FILE || path == CA_FILE
    ensures Reads(d.(files := d.files[path := data]), Put(d, path, data))
  {
    TempNames(path);
  }

  /** Two directories that agree on what Load can read load alike. */
  lemma LoadsAlike(d: Dir, e: Dir)
    requires Reads(d, e) && Whole(d)
    ensures Whole(e) && Load(e) == Load(d) && Primary(e) == Primary(d)
  {
  }

  lemma WriteLoads(d: Dir, path: string, data: Pem, torn: Pem)
    requires Whole(d) && (path == KEY_FILE || path == CERT_FILE || path == CA_FILE)
    ensures var s := Scratch(d, path, torn);
            && Whole(s) && Load(s) == Load(d) && Primary(s) == Primary(d)
            && var e := Put(s, path, data);
            && Whole(e) && Primary(e) == Primary(d)
            && Load(e) == Some(Written(Load(d).value, Primary(d), path, data))
  {
    ScratchUnseen(d, path, torn);
    var s := Scratch(d, path, torn);
    LoadsAlike(d, s);
    PutSeen(s, path, data);
    LoadsAlike(s.(files := s.files[path := data]), Put(s, path, data));
  }

  /** The identity with one of its files rewritten. */
  function Written(was: Identity, primary: bool, path: string, data: Pem): Identity {
    if path == CA_FILE then was.(ca := data)
    else if !primary then was
    else if path == KEY_FILE then was.(pair := was.pair.(key := data))
    else was.(pair := was.pair.(cert := data))
  }

  /** The three writes, one after the other. */
  lemma StagesWhole(d: Dir, id: Identity, torn: Pem)
    requires Whole(d)
    ensures var trail := SaveStages(d, id, torn);
            && Whole(trail[2]) && Whole(trail[4]) && Whole(trail[6])
            && Primary(trail[2]) == Primary(trail[4]) == Primary(trail[6]) == Primary(d)
            && Load(trail[1]) == Load(d) && Load(trail[3]) == Load(trail[2]) && Load(trail[5]) == Load(trail[4])
            && Load(trail[2]) == Some(Written(Load(d).value, Primary(d), KEY_FILE, id.pair.key))
            && Load(trail[4]) == Some(Written(Load(trail[2]).value, Primary(d), CERT_FILE, id.pair.cert))
            && Load(trail[6]) == Some(Written(Load(trail[4]).value, Primary(d), CA_FILE, id.ca))
            && Load(trail[7]) == Load(trail[6])
  {
    assert Load(d).Some?;
    hide Load; hide Whole; hide Primary; hide Scratch; hide Put; hide Written;
    var trail := SaveStages(d, id, torn);
    WriteLoads(d, KEY_FILE, id.pair.key, torn);
    WriteLoads(trail[2], CERT_FILE, id.pair.cert, torn);
    WriteLoads(trail[4], CA_FILE, id.ca, torn);
    ScratchUnseen(trail[6], META_FILE, torn);
    LoadsAlike(trail[6], trail[7]);
  }

  lemma StagesLoad(d: Dir, id: Identity, torn: Pem, steps: nat)
    requires steps < SAVE_COMMIT && Whole(d)
    ensures Load(SaveStages(d, id, torn)[steps]) == Some(Midway(Load(d).value, Primary(d), id, steps))
  {
    StagesWhole(d, id, torn);
    assert Load(d).Some? && SaveStages(d, id, torn)[0] == d;
    hide Load; hide Whole; hide Primary; hide SaveStages;
  }

  /** Enrollment over any identity, cut anywhere: what Load then returns, in full. */
  lemma SaveAtEveryCut(d: Dir, id: Identity, torn: Pem, dropKey: bool, dropCert: bool, steps: nat)
    requires steps <= 10 && Whole(d)
    ensures Load(SaveTrail(d, id, torn, dropKey, dropCert)[steps]) == Some(Midway(Load(d).value, Primary(d), id, steps))
  {
    if steps < SAVE_COMMIT {
      StagesLoad(d, id, torn, steps);
    } else {
      SaveCommits(d, id, torn, dropKey, dropCert, steps);
    }
    hide Load; hide Whole; hide Primary; hide SaveStages;
  }

  /** Enrollment into any directory, empty ones included, ends with exactly the identity
      it was given. */
  lemma SaveCommits(d: Dir, id: Identity, torn: Pem, dropKey: bool, dropCert: bool, steps: nat)
    requires SAVE_COMMIT <= steps <= 10
    ensures Load(SaveTrail(d, id, torn, dropKey, dropCert)[steps]) == Some(id)
  {
    var trail := SaveTrail(d, id, torn, dropKey, dropCert);
    assert trail[8].files[KEY_FILE] == id.pair.key;
    assert trail[8].files[CERT_FILE] == id.pair.cert;
    assert trail[8].files[CA_FILE] == id.ca;
  }

  /** Over an identity in the alternate slot enrollment is all or nothing for the pair, and
      for the whole identity exactly when it changes no CA or nothing but the CA: between
      the CA and identity.json the old pair is beside the new CA. */
  lemma SaveIsAtomicIff(d: Dir, id: Identity, torn: Pem, dropKey: bool, dropCert: bool)
    requires Whole(d) && !Primary(d)
    ensures var was, trail := Load(d).value, SaveTrail(d, id, torn, dropKey, dropCert);
            && (forall n :: 0 <= n <= 10 ==>
                  Load(trail[n]).Some? && Load(trail[n]).value.pair == if n >= SAVE_COMMIT then id.pair else was.pair)
            && ((forall n :: 0 <= n <= 10 ==> Load(trail[n]) == Some(was) || Load(trail[n]) == Some(id)) <==>
                  id.ca == was.ca || id == was.(ca := id.ca))
  {
    assert Load(d).Some?;
    forall n | 0 <= n <= 10
      ensures Load(SaveTrail(d, id, torn, dropKey, dropCert)[n]) == Some(Midway(Load(d).value, false, id, n))
    {
      SaveAtEveryCut(d, id, torn, dropKey, dropCert, n);
    }
    hide SaveTrail; hide Load; hide Whole; hide Primary;
    assert Load(SaveTrail(d, id, torn, dropKey, dropCert)[6]) == Some(Midway(Load(d).value, false, id, 6));
  }

  /** Over an identity in the primary slot even the pair tears: a cut between key and
      certificate leaves the old certificate beside the new key, and it is all or nothing
      exactly when one of the two does not change. */
  lemma SaveOverPrimaryTears(d: Dir, id: Identity, torn: Pem, dropKey: bool, dropCert: bool)
    requires Whole(d) && Primary(d)
    ensures var was, trail := Load(d).value, SaveTrail(d, id, torn, dropKey, dropCert);
            && Load(trail[2]) == Some(was.(pair := Pair(was.pair.cert, id.pair.key)))
            && ((forall n :: 0 <= n <= 10 ==>
                   Load(trail[n]).Some? && (Load(trail[n]).value.pair == was.pair || Load(trail[n]).value.pair == id.pair)) <==>
                  id.pair.key == was.pair.key || id.pair.cert == was.pair.cert)
  {
    assert Load(d).Some?;
    forall n | 0 <= n <= 10
      ensures Load(SaveTrail(d, id, torn, dropKey, dropCert)[n]) == Some(Midway(Load(d).value, true, id, n))
    {
      SaveAtEveryCut(d, id, torn, dropKey, dropCert, n);
    }
    hide SaveTrail; hide Load; hide Whole; hide Primary;
    assert Load(SaveTrail(d, id, torn, dropKey, dropCert)[2]) == Some(Midway(Load(d).value, true, id, 2));
  }
}
