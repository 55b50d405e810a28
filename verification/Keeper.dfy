/** The identity a running agent uses: disk first, memory second (agent/identity). */
module Keeper {
  import opened Common
  import opened IdentityStore

  /** X.509 as far as the agent needs it: does a key belong to a certificate, and when
      does a certificate expire (None for text that does not parse). */
  datatype Pki = Pki(matches: (Pem, Pem) -> bool, notAfter: Pem -> Option<int>)

  /** The pair presented in handshakes, with its parsed expiry. */
  datatype Held = Held(pair: Pair, notAfter: int)

  /** A host: its directory, what the running process holds (None while none runs), and
      every pair ever committed to the directory, oldest first. */
  datatype Node = Node(dir: Dir, mem: Option<Held>, committed: seq<Pair>)

  datatype Happening = Renewal(r: Rotation, dies: bool) | Boot

  /** install: parse and swap in, or leave the memory as it was. */
  function InstallPair(pki: Pki, mem: Option<Held>, pair: Pair): Option<Held> {
    if pki.matches(pair.cert, pair.key) && pki.notAfter(pair.cert).Some?
    then Some(Held(pair, pki.notAfter(pair.cert).value)) else mem
  }

  /** renewOnce refuses text that does not parse and anything that expires no later than
      what is held. */
  predicate Newer(pki: Pki, held: Held, cert: Pem) {
    pki.notAfter(cert).Some? && pki.notAfter(cert).value > held.notAfter
  }

  /** One renewal attempt, which a crash may cut after any file operation, or one start. */
  function Live(pki: Pki, n: Node, h: Happening): Node {
    match h
    case Renewal(r, dies) =>
      if n.mem.None? || !Newer(pki, n.mem.value, r.cert) then n
      else
        var dir := Rotate(n.dir, r);
        var committed := Committed(r) && n.dir.meta.Some?;
        Node(dir,
             if dies then None else if committed then InstallPair(pki, n.mem, Pair(r.cert, r.key)) else n.mem,
             if committed then n.committed + [Pair(r.cert, r.key)] else n.committed)
    case Boot =>
      if n.mem.Some? || Load(n.dir).None? then n else n.(mem := InstallPair(pki, None, Load(n.dir).value.pair))
  }

  function LiveAll(pki: Pki, n: Node, hs: seq<Happening>): Node {
    if hs == [] then n else Live(pki, LiveAll(pki, n, hs[..|hs| - 1]), hs[|hs| - 1])
  }

  /** An enrolled host before its first start. */
  ghost predicate Enrolled(n: Node) {
    Whole(n.dir) && n.mem.None? && n.committed == [Load(n.dir).value.pair]
  }

  ghost predicate Usable(pki: Pki, p: Pair) {
    pki.matches(p.cert, p.key) && pki.notAfter(p.cert).Some?
  }

  /** What is in memory was committed to disk before, is usable, and disk holds the pair
      committed last. */
  ghost predicate DiskFirst(pki: Pki, n: Node) {
    && Whole(n.dir) && n.committed != []
    && Load(n.dir).value.pair == n.committed[|n.committed| - 1]
    && (n.mem.Some? ==>
          && n.mem.value.pair in n.committed && Usable(pki, n.mem.value.pair)
          && pki.notAfter(n.mem.value.pair.cert) == Some(n.mem.value.notAfter))
  }

  lemma RenewalDiskFirst(pki: Pki, n: Node, r: Rotation, dies: bool)
    requires DiskFirst(pki, n) && n.mem.Some? && Newer(pki, n.mem.value, r.cert)
    ensures DiskFirst(pki, Live(pki, n, Renewal(r, dies)))
  {
    assert n.dir.meta.Some? && Load(n.dir).Some?;
    hide Rotate; hide Load; hide Whole; hide Committed; hide Usable;
    RotateIsAtomic(n.dir, r);
    var m, pair := Live(pki, n, Renewal(r, dies)), Pair(r.cert, r.key);
    assert m.dir == Rotate(n.dir, r);
    if Committed(r) {
      assert m.committed == n.committed + [pair] && (m.mem.None? || m.mem == InstallPair(pki, n.mem, pair));
      InstallUsable(pki, n.mem, pair);
    } else {
      assert m.committed == n.committed && (m.mem.None? || m.mem == n.mem);
    }
    hide Live; hide InstallPair;
  }

  /** install keeps what it had, or holds the given pair, usable. */
  lemma InstallUsable(pki: Pki, mem: Option<Held>, pair: Pair)
    ensures var now := InstallPair(pki, mem, pair);
            now == mem
            || (now.Some? && now.value.pair == pair && Usable(pki, pair) && pki.notAfter(pair.cert) == Some(now.value.notAfter))
  {
  }

  lemma LiveDiskFirst(pki: Pki, n: Node, h: Happening)
    requires DiskFirst(pki, n)
    ensures DiskFirst(pki, Live(pki, n, h))
  {
    if h.Renewal? && n.mem.Some? && Newer(pki, n.mem.value, h.r.cert) {
      RenewalDiskFirst(pki, n, h.r, h.dies);
    } else {
      hide Rotate; hide Load; hide Whole; hide Committed;
    }
  }

  lemma {:induction false} MemoryWasCommitted(pki: Pki, n: Node, hs: seq<Happening>)
    requires Enrolled(n)
    ensures DiskFirst(pki, LiveAll(pki, n, hs))
  {
    if hs != [] {
      MemoryWasCommitted(pki, n, hs[..|hs| - 1]);
      LiveDiskFirst(pki, LiveAll(pki, n, hs[..|hs| - 1]), hs[|hs| - 1]);
    }
  }

  /** Every certificate the plane hands out belongs to the key that was asked for. */
  ghost predicate Honest(pki: Pki, hs: seq<Happening>) {
    forall h <- hs :: h.Renewal? ==> pki.matches(h.r.cert, h.r.key)
  }

  function Expiry(pki: Pki, p: Pair): int {
    if pki.notAfter(p.cert).Some? then pki.notAfter(p.cert).value else 0
  }

  ghost predicate Increasing(pki: Pki, ps: seq<Pair>) {
    forall i, j :: 0 <= i < j < |ps| ==> Expiry(pki, ps[i]) < Expiry(pki, ps[j])
  }

  /** Each renewal expires strictly later than the one before, every committed pair is
      usable, and a running process holds the last one. */
  ghost predicate Advancing(pki: Pki, n: Node) {
    && n.committed != [] && Increasing(pki, n.committed) && (forall p <- n.committed :: Usable(pki, p))
    && (n.mem.Some? ==> n.mem.value.pair == n.committed[|n.committed| - 1])
  }

  lemma LiveAdvances(pki: Pki, n: Node, h: Happening)
    requires DiskFirst(pki, n) && Advancing(pki, n) && (h.Renewal? ==> pki.matches(h.r.cert, h.r.key))
    ensures Advancing(pki, Live(pki, n, h))
  {
    hide Rotate; hide Load; hide Whole;
    if h.Renewal? && Live(pki, n, h).committed != n.committed {
      var ps := Live(pki, n, h).committed;
      assert ps == n.committed + [Pair(h.r.cert, h.r.key)];
      assert Expiry(pki, ps[|ps| - 1]) > Expiry(pki, n.committed[|n.committed| - 1]);
    }
  }

  /** With matching certificates every run only moves forward. */
  lemma {:induction false} RenewalsAdvance(pki: Pki, n: Node, hs: seq<Happening>)
    requires Enrolled(n) && Usable(pki, n.committed[0]) && Honest(pki, hs)
    ensures Advancing(pki, LiveAll(pki, n, hs))
  {
    if hs != [] {
      var init, h := hs[..|hs| - 1], hs[|hs| - 1];
      assert h in hs && forall x <- init :: x in hs;
      RenewalsAdvance(pki, n, init);
      MemoryWasCommitted(pki, n, init);
      LiveAdvances(pki, LiveAll(pki, n, init), h);
    }
  }

  /** The order of renewOnce, disk before memory, has a price: a committed certificate
      that does not belong to its key is not noticed until it is on disk. The running
      process keeps its old pair, and the host can start again exactly when the last
      committed pair matches. */
  lemma MismatchSurvivesOnDisk(pki: Pki, n: Node, r: Rotation)
    requires DiskFirst(pki, n) && n.mem.Some? && Newer(pki, n.mem.value, r.cert) && Committed(r)
    ensures var m := Live(pki, n, Renewal(r, false));
            && Load(m.dir).Some? && Load(m.dir).value.pair == Pair(r.cert, r.key)
            && (m.mem == n.mem <==> !pki.matches(r.cert, r.key))
            && (Live(pki, m.(mem := None), Boot).mem.Some? <==> pki.matches(r.cert, r.key))
  {
    var m := Live(pki, n, Renewal(r, false));
    assert n.dir.meta.Some? && Load(n.dir).Some?;
    hide Rotate; hide Load; hide Whole; hide DiskFirst;
    RotateIsAtomic(n.dir, r);
    assert m.dir == Rotate(n.dir, r) && Load(m.dir).value.pair == Pair(r.cert, r.key);
    assert m.mem == InstallPair(pki, n.mem, Pair(r.cert, r.key));
    assert Live(pki, m.(mem := None), Boot).mem == InstallPair(pki, None, Pair(r.cert, r.key));
  }

  // ------------------------------------------------------------------ objects

  /** The state directory, written one file operation at a time. */
  class Store {
    var dir: Dir

    constructor (dir: Dir)
      ensures this.dir == dir
    {
      this.dir := dir;
    }

    /** writeFileAtomic, with `budget` operations before the process stops. */
    method WriteFileAtomic(path: string, data: Pem, torn: Pem, budget: nat)
      modifies this
      ensures dir == if budget == 0 then old(dir)
                     else if budget == 1 then Scratch(old(dir), path, torn)
                     else Put(Scratch(old(dir), path, torn), path, data)
    {
      if budget >= 1 {
        dir := dir.(files := dir.files[path + ".tmp" := torn]);
      }
      if budget >= 2 {
        dir := dir.(files := (dir.files - {path + ".tmp"})[path := data]);
      }
    }

    /** Rotate: the free slot first, then the one rename that commits, then tidiness. */
    method Rotate(r: Rotation) returns (ok: bool)
      modifies this
      ensures dir == IdentityStore.Rotate(old(dir), r)
      ensures ok <==> Committed(r) && old(dir).meta.Some?
    {
      if |r.cert| == 0 || |r.key| == 0 || dir.meta.None? {
        return false;
      }
      var m := dir.meta.value;
      var (curCert, curKey) := Files(m);
      var (newCert, newKey) := AltOf(curCert, curKey);
      WriteFileAtomic(newKey, r.key, r.torn, r.steps);
      if r.steps < 2 {
        return false;
      }
      WriteFileAtomic(newCert, r.cert, r.torn, r.steps - 2);
      if r.steps < 5 {
        return false;
      }
      dir := Scratch(dir, META_FILE, r.torn);
      if r.steps < COMMIT {
        return false;
      }
      dir := dir.(files := dir.files - {META_FILE + ".tmp"}, meta := Some(m.(certFile := newCert, keyFile := newKey)));
      if r.steps > COMMIT {
        dir := Drop(dir, curKey, r.dropKey);
      }
      if r.steps > COMMIT + 1 {
        dir := Drop(dir, curCert, r.dropCert);
      }
      ok := true;
    }
  }

  class Keeper {
    const pki: Pki
    const store: Store
    var pair: Pair
    var notAfter: int
    ghost var committed: seq<Pair>

    ghost function Now(): Node
      reads this, store
    {
      Node(store.dir, Some(Held(pair, notAfter)), committed)
    }

    constructor (pki: Pki, store: Store, ghost committed: seq<Pair>)
      requires Load(store.dir).Some? && Usable(pki, Load(store.dir).value.pair)
      ensures this.pki == pki && this.store == store && this.committed == committed
      ensures Now() == Live(pki, Node(store.dir, None, committed), Boot)
    {
      this.pki, this.store, this.committed := pki, store, committed;
      pair := Load(store.dir).value.pair;
      notAfter := pki.notAfter(Load(store.dir).value.pair.cert).value;
    }

    method Install(cert: Pem, key: Pem) returns (ok: bool)
      modifies this`pair, this`notAfter
      ensures ok <==> Usable(pki, Pair(cert, key))
      ensures Some(Held(pair, notAfter)) == InstallPair(pki, Some(Held(old(pair), old(notAfter))), Pair(cert, key))
    {
      if !pki.matches(cert, key) {
        return false;
      }
      var expiry := pki.notAfter(cert);
      if expiry.None? {
        return false;
      }
      pair, notAfter, ok := Pair(cert, key), expiry.value, true;
    }

    /** renewOnce, from the plane's answer on: refuse what does not outlive the held
        certificate, then disk, then memory. */
    method RenewOnce(r: Rotation) returns (ok: bool)
      modifies this, store
      ensures Now() == Live(pki, old(Now()), Renewal(r, false))
      ensures ok <==>
              && pki.notAfter(r.cert).Some? && pki.notAfter(r.cert).value > old(notAfter)
              && old(store.dir).meta.Some? && r.cert != [] && r.key != [] && r.steps >= 6
              && pki.matches(r.cert, r.key)
      ensures ok ==> notAfter > old(notAfter) && pair == Pair(r.cert, r.key)
      ensures !ok ==> notAfter == old(notAfter) && pair == old(pair)
    {
      ok := false;
      var expiry := pki.notAfter(r.cert);
      if expiry.Some? && expiry.value > notAfter {
        var written := store.Rotate(r);
        if written {
          committed := committed + [Pair(r.cert, r.key)];
          ok := Install(r.cert, r.key);
        }
      }
    }
  }
}
