/** The throttle in front of sign-in: core/auth's `throttle` over several limiters, and
    the discipline with which Login records failures and forgives them. */
module SignIn {
  import opened Common
  import opened RateLimit

  /** The clock reads `throttle` makes for one limiter, in order: Allow, Refuse, and the
      two of RetryAfter. */
  datatype Reads = Reads(allow: int, refuse: int, retry: int, sub: int)

  datatype RateLimited = RateLimited(retryAfter: int, firstRefusal: bool)

  ghost predicate Ordered(r: Reads) {
    r.allow <= r.refuse <= r.retry <= r.sub
  }

  /** The limiter found this key throttled when Allow read the clock. A missing limiter
      never throttles. */
  ghost predicate Blocked(l: Limiter?, key: string, r: Reads)
    reads l
  {
    l != null && Full(l.M().policy, l.Log(key), r.allow)
  }

  /** This refusal opened a throttle episode of the key. */
  ghost predicate OpensEpisode(l: Limiter?, key: string, r: Reads)
    reads l
  {
    Blocked(l, key, r) && FirstRefusal(l.M().policy, l.M().Ops(key) + [Ask(r.allow)], r.refuse)
  }

  /** If the key holds no more failures than max when RetryAfter looks, then it is free
      at every moment from `wait` after RetryAfter's last clock read. */
  ghost predicate Freed(l: Limiter?, key: string, r: Reads, wait: int)
    reads l
  {
    l != null && Count(l.Log(key), r.retry - l.window) <= l.max ==>
      forall t :: r.sub + wait <= t ==> !Full(l.M().policy, l.Log(key), t)
  }

  /** The key is still throttled when RetryAfter looks, and `wait` runs from its last clock
      read to the moment at which the oldest failure still counted leaves the window; until
      then the key stays throttled. */
  ghost predicate Waits(l: Limiter?, key: string, r: Reads, wait: int)
    reads l
  {
    && l != null && Full(l.M().policy, l.Log(key), r.retry)
    && (forall t :: r.retry <= t < r.sub + wait ==> Full(l.M().policy, l.Log(key), t))
    && var kept := Kept(l.Log(key), r.retry - l.window); kept != [] && wait == kept[0] + l.window - r.sub
  }

  datatype Verdict = Verdict(blocked: bool, first: bool, wait: int)

  /** The verdict's wait is what RetryAfter owes the key. */
  ghost predicate Tells(l: Limiter?, key: string, r: Reads, v: Verdict)
    reads l
  {
    && Freed(l, key, r, if v.wait > 0 then v.wait else 0)
    && (v.wait == 0 || (v.blocked && Waits(l, key, r, v.wait)))
    && (v.blocked ==> forall w :: Waits(l, key, r, w) ==> w == v.wait)
  }

  /** What one limiter says about one key. */
  method Consult(l: Limiter?, key: string, r: Reads) returns (v: Verdict)
    requires Ordered(r) && (l != null ==> l.Valid() && l.clock <= r.allow)
    modifies l
    ensures l != null ==> l.Valid() && l.clock <= r.sub && l.Log(key) == old(l.Log(key))
    ensures v.blocked <==> old(Blocked(l, key, r))
    ensures v.first <==> old(OpensEpisode(l, key, r))
    ensures Tells(l, key, r, v)
    ensures l != null ==> old(l.M()).OnlyKey(l.M(), key)
  {
    hide Count; hide Failures; hide Reported; hide Kept; hide Sorted;
    var blocked, first, wait := false, false, 0;
    v := Verdict(blocked, first, wait);
    if l == null {
      return;
    }
    var ok := l.Allow(key, r.allow);
    ghost var p, log, freed := l.M().policy, l.Log(key), r.allow;
    if !ok {
      blocked := true;
      first := l.Refuse(key, r.refuse);
      wait := l.RetryAfter(key, r.retry, r.sub);
      freed := if Full(p, log, r.retry) then r.sub + wait else r.retry;
    }
    if Count(log, r.retry - l.window) <= l.max {
      forall t | r.sub + (if wait > 0 then wait else 0) <= t ensures !Full(p, log, t) {
        CountAntitone(log, freed - p.window, t - p.window);
      }
    }
    v := Verdict(blocked, first, wait);
  }

  /** The objects a sign-in consults. */
  ghost function Objects(ls: seq<Limiter?>): set<Limiter> {
    set i | 0 <= i < |ls| && ls[i] != null :: ls[i]
  }

  ghost predicate Ready(ls: seq<Limiter?>, keys: seq<string>, clocks: seq<Reads>)
    reads Objects(ls)
  {
    && |ls| == |keys| == |clocks|
    && (forall i :: 0 <= i < |ls| ==> Ordered(clocks[i]))
    && (forall i :: 0 <= i < |ls| && ls[i] != null ==> ls[i].Valid() && ls[i].clock <= clocks[i].allow)
    && (forall i, j :: 0 <= i < j < |ls| && ls[i] != null ==> ls[i] != ls[j])
  }

  lemma FreedLonger(l: Limiter?, key: string, r: Reads, wait: int, longer: int)
    requires Freed(l, key, r, wait) && wait <= longer
    ensures Freed(l, key, r, longer)
  {
  }

  /** The limiter was consulted: its key's history is the one before, no other key moved,
      and the verdict is right. */
  ghost predicate Consulted(l: Limiter?, key: string, r: Reads, was: Memory, v: Verdict)
    reads l
  {
    && (l != null ==> l.Valid() && l.clock <= r.sub && l.Log(key) == was.Log(key) && was.OnlyKey(l.M(), key))
    && Tells(l, key, r, v)
  }

  lemma ConsultedMeans(l: Limiter?, key: string, r: Reads, was: Memory, v: Verdict)
    requires Consulted(l, key, r, was, v)
    ensures Tells(l, key, r, v)
    ensures l != null ==> l.Valid() && l.clock <= r.sub && l.Log(key) == was.Log(key) && was.OnlyKey(l.M(), key)
  {
  }

  method ConsultAs(l: Limiter?, key: string, r: Reads, ghost was: Memory) returns (v: Verdict)
    requires Ordered(r) && (l != null ==> l.Valid() && l.clock <= r.allow && was == l.M())
    modifies l
    ensures v.blocked <==> old(Blocked(l, key, r))
    ensures v.first <==> old(OpensEpisode(l, key, r))
    ensures Consulted(l, key, r, was, v)
  {
    hide Tells; hide Blocked; hide OpensEpisode; hide Failures;
    v := Consult(l, key, r);
  }

  /** Any blocked, any first, and the longest wait. */
  ghost predicate Summary(said: seq<Verdict>, blocked: bool, first: bool, wait: int) {
    && (blocked <==> exists i :: 0 <= i < |said| && said[i].blocked)
    && (first <==> exists i :: 0 <= i < |said| && said[i].first)
    && wait >= 0 && (forall i :: 0 <= i < |said| ==> said[i].wait <= wait)
    && (wait == 0 || exists i :: 0 <= i < |said| && said[i].wait == wait)
  }

  lemma SummaryGrows(said: seq<Verdict>, blocked: bool, first: bool, wait: int, v: Verdict)
    requires Summary(said, blocked, first, wait)
    ensures Summary(said + [v], blocked || v.blocked, first || v.first, if v.wait > wait then v.wait else wait)
  {
    var all := said + [v];
    assert forall i :: 0 <= i < |said| ==> all[i] == said[i];
    assert all[|said|] == v;
  }

  lemma SummaryMeans(said: seq<Verdict>, blocked: bool, first: bool, wait: int)
    requires Summary(said, blocked, first, wait)
    ensures wait >= 0
    ensures blocked <==> exists i :: 0 <= i < |said| && said[i].blocked
    ensures first <==> exists i :: 0 <= i < |said| && said[i].first
  {
  }

  lemma Longest(ls: seq<Limiter?>, keys: seq<string>, clocks: seq<Reads>, said: seq<Verdict>, blocked: bool, first: bool,
                wait: int)
    requires |ls| == |keys| == |clocks| == |said| && Summary(said, blocked, first, wait)
    requires forall i :: 0 <= i < |ls| ==> Tells(ls[i], keys[i], clocks[i], said[i])
    ensures forall i :: 0 <= i < |ls| ==> Freed(ls[i], keys[i], clocks[i], wait)
    ensures wait == 0 || exists i :: 0 <= i < |ls| && said[i].blocked && Waits(ls[i], keys[i], clocks[i], wait)
    ensures forall i, w :: 0 <= i < |ls| && said[i].blocked && Waits(ls[i], keys[i], clocks[i], w) ==> w <= wait
  {
    hide Freed; hide Waits;
    forall i | 0 <= i < |ls| ensures Freed(ls[i], keys[i], clocks[i], wait) {
      FreedLonger(ls[i], keys[i], clocks[i], if said[i].wait > 0 then said[i].wait else 0, wait);
    }
  }

  /** The loop of throttle. */
  method AskAll(ls: seq<Limiter?>, keys: seq<string>, clocks: seq<Reads>, ghost was: seq<Memory>)
    returns (blocked: bool, first: bool, wait: int, ghost said: seq<Verdict>)
    requires Ready(ls, keys, clocks) && |was| == |ls|
    requires forall i :: 0 <= i < |ls| && ls[i] != null ==> was[i] == ls[i].M()
    modifies Objects(ls)
    ensures |said| == |ls| && Summary(said, blocked, first, wait)
    ensures forall i :: 0 <= i < |ls| ==>
              && (said[i].blocked <==> old(Blocked(ls[i], keys[i], clocks[i])))
              && (said[i].first <==> old(OpensEpisode(ls[i], keys[i], clocks[i])))
    ensures forall i :: 0 <= i < |ls| ==> Consulted(ls[i], keys[i], clocks[i], was[i], said[i])
  {
    hide Consulted; hide Blocked; hide OpensEpisode; hide Failures;
    wait, blocked, first, said := 0, false, false, [];
    assert Summary(said, blocked, first, wait);
    hide Summary;
    for n := 0 to |ls|
      invariant forall i :: n <= i < |ls| && ls[i] != null ==> unchanged(ls[i])
      invariant |said| == n && Summary(said, blocked, first, wait)
      invariant forall i :: 0 <= i < n ==>
        && (said[i].blocked <==> old(Blocked(ls[i], keys[i], clocks[i])))
        && (said[i].first <==> old(OpensEpisode(ls[i], keys[i], clocks[i])))
      invariant forall i :: 0 <= i < n ==> Consulted(ls[i], keys[i], clocks[i], was[i], said[i])
    {
      var v := ConsultAs(ls[n], keys[n], clocks[n], was[n]);
      SummaryGrows(said, blocked, first, wait, v);
      blocked, first, said := blocked || v.blocked, first || v.first, said + [v];
      if v.wait > wait {
        wait := v.wait;
      }
    }
  }

  /** throttle: refuse unless every key is allowed, with the longest wait among the blocked
      ones, which frees them all, and say whether any of the refusals opened an episode. */
  method Throttle(ls: seq<Limiter?>, keys: seq<string>, clocks: seq<Reads>) returns (err: Option<RateLimited>)
    requires Ready(ls, keys, clocks)
    modifies Objects(ls)
    ensures forall i :: 0 <= i < |ls| && ls[i] != null ==>
              && ls[i].Valid() && ls[i].clock <= clocks[i].sub && ls[i].Log(keys[i]) == old(ls[i].Log(keys[i]))
              && old(ls[i].M()).OnlyKey(ls[i].M(), keys[i])
    ensures err.Some? <==> exists i :: 0 <= i < |ls| && old(Blocked(ls[i], keys[i], clocks[i]))
    ensures err.Some? ==>
              && err.value.retryAfter >= 0
              && (err.value.firstRefusal <==> exists i :: 0 <= i < |ls| && old(OpensEpisode(ls[i], keys[i], clocks[i])))
              && (forall i :: 0 <= i < |ls| ==> Freed(ls[i], keys[i], clocks[i], err.value.retryAfter))
              && (err.value.retryAfter == 0 ||
                  exists i :: 0 <= i < |ls| && old(Blocked(ls[i], keys[i], clocks[i]))
                              && Waits(ls[i], keys[i], clocks[i], err.value.retryAfter))
              && (forall i, w ::
                    0 <= i < |ls| && old(Blocked(ls[i], keys[i], clocks[i])) && Waits(ls[i], keys[i], clocks[i], w) ==>
                      w <= err.value.retryAfter)
  {
    hide Waits; hide Tells; hide Consulted; hide Summary; hide Blocked; hide OpensEpisode; hide Freed; hide Failures;
    ghost var was := seq(|ls|, i requires 0 <= i < |ls| =>
                           if ls[i] == null then Memory(Policy(1, 0), map[], {}, map[], 0) else old(ls[i].M()));
    var blocked, first, wait, said := AskAll(ls, keys, clocks, was);
    forall i | 0 <= i < |ls|
      ensures Tells(ls[i], keys[i], clocks[i], said[i])
      ensures ls[i] != null ==>
                && ls[i].Valid() && ls[i].clock <= clocks[i].sub && ls[i].Log(keys[i]) == old(ls[i].Log(keys[i]))
                && old(ls[i].M()).OnlyKey(ls[i].M(), keys[i])
    {
      ConsultedMeans(ls[i], keys[i], clocks[i], was[i], said[i]);
    }
    Longest(ls, keys, clocks, said, blocked, first, wait);
    SummaryMeans(said, blocked, first, wait);
    err := if blocked then Some(RateLimited(wait, first)) else None;
  }

  /** The promised header value is enough too: a key that the wait frees is free from that
      many whole seconds on. */
  lemma SecondsAreEnough(l: Limiter?, key: string, r: Reads, wait: int)
    requires Freed(l, key, r, wait)
    ensures Freed(l, key, r, RetryAfterSeconds(wait) * SECOND)
  {
    FreedLonger(l, key, r, wait, RetryAfterSeconds(wait) * SECOND);
  }

  // -------------------------------------------------------------------- Login

  /** How an attempt that passed the throttle ends. */
  datatype Outcome = UnknownUser | StoreFailed | WrongPassword | CodeMissing | CodeCheckFailed | WrongCode
                   | SessionFailed | SignedIn

  datatype Answer = TooMany(error: RateLimited) | InvalidCredentials | TOTPRequired | Failed | Token

  /** Login over its limiters: a throttled attempt is answered before any credential is
      looked at; a wrong user, password or code adds one failure to every key; only a
      correct sign-in clears them; a missing code or an internal error changes nothing. */
  method Login(ls: seq<Limiter?>, keys: seq<string>, clocks: seq<Reads>, fails: seq<(int, int)>, outcome: Outcome)
    returns (answer: Answer)
    requires Ready(ls, keys, clocks) && |fails| == |ls|
    requires forall i :: 0 <= i < |ls| ==> clocks[i].sub <= fails[i].0 <= fails[i].1
    modifies Objects(ls)
    ensures forall i :: 0 <= i < |ls| && ls[i] != null ==>
              ls[i].Valid() && old(ls[i].M()).OnlyKey(ls[i].M(), keys[i])
    ensures answer.TooMany? <==> exists i :: 0 <= i < |ls| && old(Blocked(ls[i], keys[i], clocks[i]))
    ensures answer.Token? <==> !answer.TooMany? && outcome.SignedIn?
    ensures answer.InvalidCredentials? <==>
            !answer.TooMany? && (outcome.UnknownUser? || outcome.WrongPassword? || outcome.WrongCode?)
    ensures answer.TOTPRequired? <==> !answer.TooMany? && outcome.CodeMissing?
    ensures answer.Failed? <==>
            !answer.TooMany? && (outcome.StoreFailed? || outcome.CodeCheckFailed? || outcome.SessionFailed?)
    ensures answer.TooMany? ==>
              && answer.error.retryAfter >= 0
              && (answer.error.firstRefusal <==> exists i :: 0 <= i < |ls| && old(OpensEpisode(ls[i], keys[i], clocks[i])))
              && (forall i :: 0 <= i < |ls| ==> Freed(ls[i], keys[i], clocks[i], answer.error.retryAfter))
              && (answer.error.retryAfter == 0 ||
                  exists i :: 0 <= i < |ls| && old(Blocked(ls[i], keys[i], clocks[i]))
                              && Waits(ls[i], keys[i], clocks[i], answer.error.retryAfter))
    ensures forall i :: 0 <= i < |ls| && ls[i] != null ==>
              ls[i].Log(keys[i]) ==
              if answer.TooMany? then old(ls[i].Log(keys[i]))
              else match outcome
                case UnknownUser => old(ls[i].Log(keys[i])) + [fails[i].1]
                case WrongPassword => old(ls[i].Log(keys[i])) + [fails[i].1]
                case WrongCode => old(ls[i].Log(keys[i])) + [fails[i].1]
                case SessionFailed => []
                case SignedIn => []
                case _ => old(ls[i].Log(keys[i]))
  {
    hide Count; hide Failures; hide Reported; hide Kept; hide Sorted; hide Full; hide Freed; hide Waits; hide Blocked;
    hide OpensEpisode;
    var err := Throttle(ls, keys, clocks);
    if err.Some? {
      return TooMany(err.value);
    }
    match outcome
    case UnknownUser => FailAll(ls, keys, fails); answer := InvalidCredentials;
    case StoreFailed => answer := Failed;
    case WrongPassword => FailAll(ls, keys, fails); answer := InvalidCredentials;
    case CodeMissing => answer := TOTPRequired;
    case CodeCheckFailed => answer := Failed;
    case WrongCode => FailAll(ls, keys, fails); answer := InvalidCredentials;
    case SessionFailed => ResetAll(ls, keys); answer := Failed;
    case SignedIn => ResetAll(ls, keys); answer := Token;
  }

  method FailAll(ls: seq<Limiter?>, keys: seq<string>, fails: seq<(int, int)>)
    requires |ls| == |keys| == |fails|
    requires forall i :: 0 <= i < |ls| && ls[i] != null ==> ls[i].Valid() && ls[i].clock <= fails[i].0 <= fails[i].1
    requires forall i, j :: 0 <= i < j < |ls| && ls[i] != null ==> ls[i] != ls[j]
    modifies Objects(ls)
    ensures forall i :: 0 <= i < |ls| && ls[i] != null ==>
              ls[i].Valid() && ls[i].Log(keys[i]) == old(ls[i].Log(keys[i])) + [fails[i].1]
              && old(ls[i].M()).OnlyKey(ls[i].M(), keys[i])
  {
    hide Count; hide Failures; hide Reported; hide Kept; hide Sorted; hide Full;
    for n := 0 to |ls|
      invariant forall i :: 0 <= i < n && ls[i] != null ==>
        ls[i].Valid() && ls[i].Log(keys[i]) == old(ls[i].Log(keys[i])) + [fails[i].1]
        && old(ls[i].M()).OnlyKey(ls[i].M(), keys[i])
      invariant forall i :: n <= i < |ls| && ls[i] != null ==> ls[i].M() == old(ls[i].M())
    {
      if ls[n] != null {
        ls[n].Fail(keys[n], fails[n].0, fails[n].1);
      }
    }
  }

  method ResetAll(ls: seq<Limiter?>, keys: seq<string>)
    requires |ls| == |keys|
    requires forall i :: 0 <= i < |ls| && ls[i] != null ==> ls[i].Valid()
    requires forall i, j :: 0 <= i < j < |ls| && ls[i] != null ==> ls[i] != ls[j]
    modifies Objects(ls)
    ensures forall i :: 0 <= i < |ls| && ls[i] != null ==>
              ls[i].Valid() && ls[i].Log(keys[i]) == [] && old(ls[i].M()).OnlyKey(ls[i].M(), keys[i])
  {
    hide Count; hide Failures; hide Reported; hide Kept; hide Sorted; hide Full;
    for n := 0 to |ls|
      invariant forall i :: 0 <= i < n && ls[i] != null ==>
        ls[i].Valid() && ls[i].Log(keys[i]) == [] && old(ls[i].M()).OnlyKey(ls[i].M(), keys[i])
      invariant forall i :: n <= i < |ls| && ls[i] != null ==> ls[i].M() == old(ls[i].M())
    {
      if ls[n] != null {
        ls[n].Reset(keys[n]);
      }
    }
  }

  // ------------------------------------------------------- concurrent sign-ins

  /** What sign-ins in flight do to one key of one limiter. Between the throttle and the
      verdict of one attempt, others may run: each attempt enters once and leaves once, and
      a refused one looks at the key again for its answer. */
  datatype Move = Enter(at: int) | Look(at: int) | LeaveFailed(at: int, stamp: int) | LeaveSignedIn | LeaveOther

  datatype Gate = Gate(stored: seq<int>, inFlight: nat)

  function Pass(p: Policy, g: Gate, m: Move): Gate {
    match m
    case Enter(at) =>
      var kept := Kept(g.stored, at - p.window);
      if |kept| < p.max then Gate(kept, g.inFlight + 1) else Gate(kept, g.inFlight)
    case Look(at) => Gate(Kept(g.stored, at - p.window), g.inFlight)
    case LeaveFailed(at, stamp) =>
      if g.inFlight == 0 then g else Gate(Kept(g.stored, at - p.window) + [stamp], g.inFlight - 1)
    case LeaveSignedIn => if g.inFlight == 0 then g else Gate([], g.inFlight - 1)
    case LeaveOther => if g.inFlight == 0 then g else Gate(g.stored, g.inFlight - 1)
  }

  function PassAll(p: Policy, moves: seq<Move>): Gate {
    if moves == [] then Gate([], 0) else Pass(p, PassAll(p, moves[..|moves| - 1]), moves[|moves| - 1])
  }

  lemma {:induction false} KeptShrinks(log: seq<int>, cut: int)
    ensures |Kept(log, cut)| <= |log|
  {
    if log != [] {
      KeptShrinks(log[1..], cut);
    }
  }

  /** With never more than k attempts in flight at once, a key never holds more than
      max - 1 + k failures, in any interleaving. */
  lemma {:induction false} InFlightBound(p: Policy, moves: seq<Move>, k: nat)
    requires p.max >= 1
    requires forall n :: 0 <= n <= |moves| ==> PassAll(p, moves[..n]).inFlight <= k
    ensures |PassAll(p, moves).stored| + PassAll(p, moves).inFlight <= p.max - 1 + k
  {
    if moves != [] {
      hide Pass;
      var last := |moves| - 1;
      var init := moves[..last];
      forall n | 0 <= n <= |init| ensures PassAll(p, init[..n]).inFlight <= k {
        assert init[..n] == moves[..n];
      }
      InFlightBound(p, init, k);
      assert moves[..|moves|] == moves;
      MoveBound(p, PassAll(p, init), moves[last], k);
    }
  }

  lemma MoveBound(p: Policy, g: Gate, m: Move, k: nat)
    requires |g.stored| + g.inFlight <= p.max - 1 + k && Pass(p, g, m).inFlight <= k
    ensures |Pass(p, g, m).stored| + Pass(p, g, m).inFlight <= p.max - 1 + k
  {
    hide Kept;
    match m
    case Enter(at) => KeptShrinks(g.stored, at - p.window);
    case Look(at) => KeptShrinks(g.stored, at - p.window);
    case LeaveFailed(at, _) => KeptShrinks(g.stored, at - p.window);
    case _ =>
  }

  /** The bound is reached: with one failure allowed, two attempts that both enter
      before either of them fails leave two failures behind. */
  lemma InFlightBoundReached()
    ensures PassAll(Policy(1, 100), [Enter(0), Enter(0), LeaveFailed(1, 1), LeaveFailed(1, 2)]) == Gate([1, 2], 0)
  {
    var p, ms := Policy(1, 100), [Enter(0), Enter(0), LeaveFailed(1, 1), LeaveFailed(1, 2)];
    assert ms[..1][..0] == [] && ms[..2][..1] == ms[..1] && ms[..3][..2] == ms[..2];
    assert PassAll(p, ms[..1]) == Gate([], 1);
    assert PassAll(p, ms[..2]) == Gate([], 2);
    assert PassAll(p, ms[..3]) == Gate([1], 1);
    assert Kept([1], 1 - 100) == [1] by { assert [1][1..] == []; }
  }

  lemma PassSnoc(p: Policy, moves: seq<Move>, m: Move)
    ensures PassAll(p, moves + [m]) == Pass(p, PassAll(p, moves), m)
  {
    assert (moves + [m])[..|moves|] == moves;
  }

  /** One key of a real limiter and the attempts on it that are in flight: it moves exactly
      as the gate does, so the bound is one on the limiter's own slice. */
  class Door {
    const limiter: Limiter
    const key: string
    var inFlight: nat
    ghost var moves: seq<Move>

    ghost predicate Valid()
      reads this, limiter
    {
      && limiter.Valid()
      && Gate(limiter.M().Stored(key), inFlight) == PassAll(limiter.M().policy, moves)
    }

    constructor (limiter: Limiter, key: string)
      requires limiter.Valid() && limiter.M().Stored(key) == []
      ensures Valid() && this.limiter == limiter && this.key == key && moves == []
    {
      this.limiter, this.key, inFlight, moves := limiter, key, 0, [];
    }

    method Enter(at: int) returns (ok: bool)
      requires Valid() && limiter.clock <= at
      modifies this, limiter
      ensures Valid() && limiter.clock == at && moves == old(moves) + [Move.Enter(at)]
      ensures ok <==> inFlight == old(inFlight) + 1
    {
      hide Kept; hide Count; hide Failures; hide Reported; hide Sorted; hide PassAll;
      ok := limiter.Allow(key, at);
      if ok {
        inFlight := inFlight + 1;
      }
      PassSnoc(limiter.M().policy, moves, Move.Enter(at));
      moves := moves + [Move.Enter(at)];
    }

    /** A refused attempt looks at the key again, for its answer. */
    method Look(at: int) returns (first: bool)
      requires Valid() && limiter.clock <= at
      modifies this, limiter
      ensures Valid() && limiter.clock == at && moves == old(moves) + [Move.Look(at)] && inFlight == old(inFlight)
    {
      hide Kept; hide Count; hide Failures; hide Reported; hide Sorted; hide PassAll; hide FirstRefusal; hide Full;
      first := limiter.Refuse(key, at);
      PassSnoc(limiter.M().policy, moves, Move.Look(at));
      moves := moves + [Move.Look(at)];
    }

    method LeaveFailed(at: int, stamp: int)
      requires Valid() && limiter.clock <= at <= stamp && inFlight > 0
      modifies this, limiter
      ensures Valid() && limiter.clock == stamp && moves == old(moves) + [Move.LeaveFailed(at, stamp)]
    {
      hide Kept; hide Count; hide Failures; hide Reported; hide Sorted; hide PassAll;
      limiter.Fail(key, at, stamp);
      inFlight := inFlight - 1;
      PassSnoc(limiter.M().policy, moves, Move.LeaveFailed(at, stamp));
      moves := moves + [Move.LeaveFailed(at, stamp)];
    }

    method LeaveSignedIn()
      requires Valid() && inFlight > 0
      modifies this, limiter
      ensures Valid() && moves == old(moves) + [Move.LeaveSignedIn]
    {
      hide Kept; hide Count; hide Failures; hide Reported; hide Sorted; hide PassAll;
      limiter.Reset(key);
      inFlight := inFlight - 1;
      PassSnoc(limiter.M().policy, moves, Move.LeaveSignedIn);
      moves := moves + [Move.LeaveSignedIn];
    }

    method LeaveOther()
      requires Valid() && inFlight > 0
      modifies this
      ensures Valid() && moves == old(moves) + [Move.LeaveOther]
    {
      hide Kept; hide Count; hide Failures; hide Reported; hide Sorted; hide PassAll;
      inFlight := inFlight - 1;
      PassSnoc(limiter.M().policy, moves, Move.LeaveOther);
      moves := moves + [Move.LeaveOther];
    }

    /** The key of the limiter holds at most max - 1 + k failures while at most k attempts
        were ever in flight at once. */
    lemma Bounded(k: nat)
      requires Valid()
      requires forall n :: 0 <= n <= |moves| ==> PassAll(limiter.M().policy, moves[..n]).inFlight <= k
      ensures |limiter.M().Stored(key)| + inFlight <= limiter.max - 1 + k
    {
      InFlightBound(limiter.M().policy, moves, k);
    }
  }
}
