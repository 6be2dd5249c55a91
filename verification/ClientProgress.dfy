/**
 * What the user of a client gets to see of each event, entry by entry, how often a
 * connection is tried, and that every connect() returns once.
 */
module ClientProgress {
  import opened Base
  import opened ClientSpec
  import opened ClientTheorems

  // ---- DISCONNECT ---------------------------------------------------------------------------

  /** What comes behind the user's callback when the link is lost for good. */
  function Aftermath(s: State, reason: NonZero): seq<Act> {
    var gone := s.config.deleteOnDisconnect || (reason == 0x23e && s.config.deleteOnFail);
    if s.task then (if gone && reason != 0x23e then [Deleted, Release(reason)] else [Release(reason)])
    else if gone then [Deleted] else []
  }

  predicate Retried(s: State, reason: NonZero) { reason == 0x23e && s.retryCount < s.config.retries }

  /** An establishment lost with retries left is tried again, silently: connect() goes on waiting. */
  lemma DropRetries(s: State, e: Event)
    requires Legal(s, e) && e.GapDisconnect? && e.reason == 0x23e && s.retryCount < s.config.retries && e.retryRc == 0
    ensures Step(s, e) == s.(link := Link(Connecting, None, false, false), retryCount := s.retryCount + 1,
                             log := s.log + [Dropped, Attempt])
  {
    assert s.log + [Dropped] + [Attempt] == s.log + [Dropped, Attempt];
  }

  /** Any other loss ends the matter; an attempt shows only if a retry was due and could not be started. */
  lemma DropEndsIt(s: State, e: Event)
    requires Legal(s, e) && e.GapDisconnect? && !(Retried(s, e.reason) && e.retryRc == 0)
    ensures var t := Step(s, e);
            && t.log == s.log + [Dropped] + (if Retried(s, e.reason) then [Attempt] else [])
                        + [if e.reason == 0x23e then OnConnectFail(0x23e) else OnDisconnect(e.reason)] + Aftermath(s, e.reason)
            && t.link == Link(Disconnected, None, false, false)
            && t.caller == (if s.task then Waiting(Some(e.reason)) else s.caller) && t.task == s.task
  {
    var s1 := DropLink(s);
    var s2 := if Retried(s, e.reason) then Retrying(s1) else s1;
    LostEntries(s2, e.reason);
    assert s.log + [Dropped] + [] == s.log + [Dropped];
  }

  lemma LostEntries(s: State, reason: NonZero)
    ensures var t := Lost(s, reason);
            && t.log == s.log + [if reason == 0x23e then OnConnectFail(0x23e) else OnDisconnect(reason)] + Aftermath(s, reason)
            && t.link == s.link.(status := Disconnected, handle := None)
            && t.caller == (if s.task then Waiting(Some(reason)) else s.caller) && t.task == s.task
  {
    var l := s.log + [if reason == 0x23e then OnConnectFail(0x23e) else OnDisconnect(reason)];
    assert l + [] == l && l + [Deleted] + [Release(reason)] == l + [Deleted, Release(reason)];
  }

  // ---- how many attempts ------------------------------------------------------------------------

  /** The entries a function adds leave the count of attempts, and the retries, alone. */
  predicate SameTries(s: State, t: State) {
    Read(t.log).attempts == Read(s.log).attempts && t.retryCount == s.retryCount && t.config.retries == s.config.retries
  }

  lemma NoteTries(s: State, a: Act)
    requires !a.Begun? && !a.Attempt?
    ensures SameTries(s, Note(s, a))
  {
    Notes(s, a);
  }

  lemma ReleasedTries(s: State, rc: int)
    ensures SameTries(s, Released(s, rc))
  {
    if s.task { NoteTries(s.(caller := Waiting(Some(rc))), Release(rc)); }
  }

  lemma DeleteTries(s: State)
    ensures SameTries(s, Delete(s))
  {
    NoteTries(s.(alive := false), Deleted);
  }

  lemma CompleteTries(s: State)
    ensures SameTries(s, Complete(s))
  {
    if s.link.pending {
      var s0 := s.(link := s.link.(pending := false, armed := false), task := false);
      NoteTries(s0, OnConnect);
      if s.task { NoteTries(Note(s0, OnConnect).(caller := Waiting(Some(0))), Release(0)); }
    }
  }

  lemma FailedTries(s: State)
    ensures SameTries(s, Failed(s))
  {
    var s1 := s.(link := s.link.(status := Disconnected), caller := Idle, task := false);
    DeleteTries(s1);
    NoteTries(if s.config.deleteOnFail then Delete(s1) else s1, Returned(false));
  }

  lemma FinishTries(s: State, rc: int)
    ensures SameTries(s, Finish(s, rc))
  {
    if rc != 0 { FailedTries(s); } else { NoteTries(s.(caller := Idle, task := false), Returned(true)); }
  }

  lemma ConnectTries(s: State, status: int, handle: nat)
    ensures SameTries(s, OnGapConnect(s, status, handle))
  {
    if s.link.status != Connecting {
      NoteTries(s, Turned(handle));
    } else if status == 0 || status == UNSUPPORTED_REMOTE_FEATURE {
      NoteTries(s.(link := Link(Connected, Some(handle), true, true)), Accepted(handle));
    } else {
      RefuseTries(s, status);
      ReleasedTries(Refuse(s, status), status);
    }
  }

  lemma RefuseTries(s: State, status: int)
    ensures SameTries(s, Refuse(s, status))
  {
    var s1 := s.(link := Link(Disconnected, None, false, false));
    NoteTries(s1, OnConnectFail(status));
    DeleteTries(Note(s1, OnConnectFail(status)));
  }

  lemma LostTries(s: State, reason: NonZero)
    ensures SameTries(s, Lost(s, reason))
  {
    var t := LostIs(s, reason);
    NoteTries(s, if reason == ESTABLISHMENT_FAILED then OnConnectFail(reason) else OnDisconnect(reason));
    DeleteTries(t);
    ReleasedTries(t, reason);
    ReleasedTries(Delete(t), reason);
    ReleasedTries(t.(config := t.config.(deleteOnFail := true)), reason);
  }

  lemma DropTries(s: State, e: Event)
    requires Legal(s, e) && e.GapDisconnect? && e.reason == 0x23e && e.retryRc == 0
    ensures var t, n := Step(s, e), if s.retryCount < s.config.retries then 1 else 0;
            Read(t.log).attempts == Read(s.log).attempts + n && t.retryCount == s.retryCount + n && t.config.retries == s.config.retries
  {
    var s1 := DropLink(s);
    NoteTries(s.(link := s.link.(pending := false, armed := false)), Dropped);
    if s.retryCount < s.config.retries {
      Notes(s1.(link := s1.link.(handle := None, status := Connecting), retryCount := s1.retryCount + 1), Attempt);
    } else {
      LostTries(s1, e.reason);
    }
  }

  lemma TimerTries(s: State, due: bool)
    ensures SameTries(s, OnTimer(s, due))
  {
    CompleteTries(if due then s.(link := s.link.(armed := false)) else s);
  }

  /** No new connect(), the retries left as they are, and each loss one of establishment with a retry that starts. */
  predicate Failing(e: Event, n: Retries) {
    !e.Begin? && (e.SetConfig? ==> e.config.retries == n) && (e.GapDisconnect? ==> e.reason == 0x23e && e.retryRc == 0)
  }

  lemma OtherTries(s: State, e: Event)
    requires Legal(s, e) && Failing(e, s.config.retries) && !e.GapDisconnect?
    ensures SameTries(s, Step(s, e))
  {
    match e
    case Wake => FinishTries(s, s.caller.flag.value);
    case Expire => FinishTries(s, if s.link.status != Connected then ETIMEOUT else 0);
    case GapConnect(status, handle) => ConnectTries(s, status, handle);
    case GapQuiet(_) => CompleteTries(s);
    case GapReporting(_, rc) => CompleteTries(s); ReleasedTries(s, rc);
    case Timer(due) => TimerTries(s, due);
    case _ =>
  }

  predicate AllFailing(es: seq<Event>, n: Retries) { es == [] || (Failing(es[0], n) && AllFailing(es[1..], n)) }

  function Losses(es: seq<Event>): nat {
    if es == [] then 0 else (if es[0].GapDisconnect? then 1 else 0) + Losses(es[1..])
  }

  /** So many retries counted, of n, and an attempt for each beyond those before. */
  predicate Counted(s: State, n: Retries, before: int, retries: int) {
    s.config.retries == n && s.retryCount == retries <= n && Read(s.log).attempts == before + retries
  }

  lemma FailingStep(s: State, e: Event, n: Retries, before: int, retries: int)
    requires Legal(s, e) && Failing(e, n) && Counted(s, n, before, retries)
    ensures Counted(Step(s, e), n, before, Min(retries + (if e.GapDisconnect? then 1 else 0), n))
  {
    if e.GapDisconnect? { DropTries(s, e); } else { OtherTries(s, e); }
  }

  lemma {:induction false} FailingRun(s: State, es: seq<Event>, n: Retries, before: int, retries: int)
    requires LegalRun(s, es) && AllFailing(es, n) && Counted(s, n, before, retries)
    ensures Counted(Run(s, es), n, before, Min(retries + Losses(es), n))
    decreases |es|
  {
    if es != [] {
      FailingStep(s, es[0], n, before, retries);
      FailingRun(Step(s, es[0]), es[1..], n, before, Min(retries + (if es[0].GapDisconnect? then 1 else 0), n));
    }
  }

  /**
   * Behind a connect() that began with n retries, whatever else happens: as long as every
   * loss is one of establishment, and every retry can be started, each of the first n losses
   * brings exactly one attempt more, and no later one does.
   */
  lemma AttemptsExactly(s: State, e: Event, es: seq<Event>, n: Retries)
    requires e.Begin? && LegalRun(s, [e] + es) && e.synced && !e.nullAddress && s.link.status == Disconnected && s.config.retries == n
    requires AllFailing(es, n)
    ensures Read(Run(s, [e] + es).log).attempts == 1 + Min(Losses(es), n)
  {
    assert ([e] + es)[1..] == es;
    var s1 := BegunState(s, e.isAsync);
    var s0 := s.(link := s.link.(status := Connecting, pending := false), config := s.config.(isAsync := e.isAsync), retryCount := 0);
    Notes(s0, Begun);
    Notes(Note(s0, Begun), Attempt);
    FailedTries(s1);
    NoteTries(s1, Returned(true));
    FailingRun(Step(s, e), es, n, 1, 0);
  }

  // ---- a connect() that never gets established --------------------------------------------------

  /** Each of these connections is accepted and lost before it is established. */
  function Tried(hs: seq<nat>): seq<Event> {
    if hs == [] then [] else [GapConnect(0, hs[0]), GapDisconnect(0x23e, 0)] + Tried(hs[1..])
  }

  function Shown(hs: seq<nat>): seq<Act> {
    if hs == [] then [] else [Accepted(hs[0]), Dropped, Attempt] + Shown(hs[1..])
  }

  lemma {:induction false} RunConcat(s: State, a: seq<Event>, b: seq<Event>)
    requires LegalRun(s, a) && LegalRun(Run(s, a), b)
    ensures LegalRun(s, a + b) && Run(s, a + b) == Run(Run(s, a), b)
    decreases |a|
  {
    if a == [] {
      assert a + b == b;
    } else {
      ConsConcat(a, b);
      RunConcat(Step(s, a[0]), a[1..], b);
    }
  }

  lemma TwoSteps(s: State, e: Event, f: Event, t: State)
    requires Legal(s, e) && Legal(Step(s, e), f) && Step(Step(s, e), f) == t
    ensures LegalRun(s, [e, f]) && Run(s, [e, f]) == t
  {
    var s1 := Step(s, e);
    LeadsOn(s1, f, t, []);
    LeadsOn(s, e, s1, [f]);
    assert [e] + [f] == [e, f] && [f] + [] == [f];
  }

  /** One of them, with a retry left. */
  lemma LostOnce(s: State, h: nat)
    requires s.alive && s.link.status == Connecting && s.retryCount < s.config.retries
    ensures var es := [GapConnect(0, h), GapDisconnect(0x23e, 0)];
            LegalRun(s, es)
            && Run(s, es) == s.(link := Link(Connecting, None, false, false), retryCount := s.retryCount + 1,
                                log := s.log + [Accepted(h), Dropped, Attempt])
  {
    var e, f := GapConnect(0, h), GapDisconnect(0x23e, 0);
    var s1 := Step(s, e);
    DropRetries(s1, f);
    assert s.log + [Accepted(h)] + [Dropped, Attempt] == s.log + [Accepted(h), Dropped, Attempt];
    TwoSteps(s, e, f, Step(s1, f));
  }

  lemma {:induction false} LostRun(s: State, hs: seq<nat>)
    requires s.alive && s.link.status == Connecting && s.retryCount + |hs| <= s.config.retries
    ensures LegalRun(s, Tried(hs))
    ensures Run(s, Tried(hs)) == s.(link := if hs == [] then s.link else Link(Connecting, None, false, false),
                                    retryCount := s.retryCount + |hs|, log := s.log + Shown(hs))
    decreases |hs|
  {
    if hs == [] {
      assert s.log + Shown(hs) == s.log;
    } else {
      var es := [GapConnect(0, hs[0]), GapDisconnect(0x23e, 0)];
      LostOnce(s, hs[0]);
      LostRun(Run(s, es), hs[1..]);
      RunConcat(s, es, Tried(hs[1..]));
      Assoc(s.log, [Accepted(hs[0]), Dropped, Attempt], Shown(hs[1..]));
    }
  }

  /** The last of them, with none left: connect() fails. */
  lemma LostLast(s: State, h: nat)
    requires s.alive && s.link.status == Connecting && s.retryCount >= s.config.retries && s.task && s.caller.Waiting?
    ensures var es := [GapConnect(0, h), GapDisconnect(0x23e, 0)];
            && LegalRun(s, es)
            && var t := Run(s, es);
               t.log == s.log + [Accepted(h), Dropped, OnConnectFail(0x23e), Release(0x23e)]
               && t.caller == Waiting(Some(0x23e)) && t.alive && t.link == Link(Disconnected, None, false, false)
               && t.config.deleteOnFail == (s.config.deleteOnDisconnect || s.config.deleteOnFail)
  {
    var e, f := GapConnect(0, h), GapDisconnect(0x23e, 0);
    var s1 := Step(s, e);
    DropEndsIt(s1, f);
    assert s.log + [Accepted(h)] + [Dropped] + [] + [OnConnectFail(0x23e)] + [Release(0x23e)]
           == s.log + [Accepted(h), Dropped, OnConnectFail(0x23e), Release(0x23e)];
    TwoSteps(s, e, f, Step(s1, f));
  }

  function LastWords(config: Config): seq<Act> {
    if config.deleteOnDisconnect || config.deleteOnFail then [Deleted, Returned(false)] else [Returned(false)]
  }

  lemma BegunAndWaiting(config: Config)
    ensures LegalRun(Fresh(config), [CONNECT, Block])
    ensures var s := Run(Fresh(config), [CONNECT, Block]);
            && s.log == [Begun, Attempt] && s.alive && s.link.status == Connecting && s.retryCount == 0
            && s.config == config.(isAsync := false) && s.task && s.caller == Waiting(None)
  {
    TwoSteps(Fresh(config), CONNECT, Block, Step(Step(Fresh(config), CONNECT), Block));
  }

  lemma WakeFails(s: State)
    requires s.alive && s.caller == Waiting(Some(0x23e))
    ensures LegalRun(s, [Wake])
    ensures Run(s, [Wake]).log == s.log + (if s.config.deleteOnFail then [Deleted, Returned(false)] else [Returned(false)])
  {
    assert [Wake][1..] == [];
    assert s.log + [Deleted] + [Returned(false)] == s.log + [Deleted, Returned(false)];
  }

  /**
   * With n retries, every attempt started and every connection lost before it is established,
   * connect() makes n + 1 attempts, hears onConnectFail(0x23e) once, and returns false.
   */
  lemma RetriesShown(config: Config, hs: seq<nat>, h: nat)
    requires |hs| == config.retries
    ensures var es := [CONNECT, Block] + Tried(hs) + [GapConnect(0, h), GapDisconnect(0x23e, 0)] + [Wake];
            LegalRun(Fresh(config), es)
            && Run(Fresh(config), es).log == [Begun, Attempt] + Shown(hs)
                                             + [Accepted(h), Dropped, OnConnectFail(0x23e), Release(0x23e)] + LastWords(config)
  {
    var a, b := [CONNECT, Block], [GapConnect(0, h), GapDisconnect(0x23e, 0)];
    BegunAndWaiting(config);
    var s1 := Run(Fresh(config), a);
    LostRun(s1, hs);
    LostLast(Run(s1, Tried(hs)), h);
    WakeFails(Run(Run(s1, Tried(hs)), b));
    FourRuns(Fresh(config), a, Tried(hs), b, [Wake]);
  }

  /** Up to there it has shown one attempt more than there were retries, and nothing behind is one. */
  lemma RetriesCounted(hs: seq<nat>, rest: seq<Act>)
    requires forall i :: 0 <= i < |rest| ==> !rest[i].Attempt?
    ensures Attempts([Begun, Attempt] + Shown(hs) + rest) == |hs| + 1
  {
    ShownAttempts(hs);
    AttemptsConcat([Begun, Attempt], Shown(hs));
    AttemptsConcat([Begun, Attempt] + Shown(hs), rest);
    NoAttempts(rest);
    assert [Begun, Attempt][1..] == [Attempt] && [Attempt][1..] == [];
  }

  lemma {:induction false} NoAttempts(l: seq<Act>)
    requires forall i :: 0 <= i < |l| ==> !l[i].Attempt?
    ensures Attempts(l) == 0
  {
    if l != [] {
      assert forall i :: 0 <= i < |l| - 1 ==> l[1..][i] == l[i + 1];
      NoAttempts(l[1..]);
    }
  }

  lemma FourRuns(s: State, a: seq<Event>, b: seq<Event>, c: seq<Event>, d: seq<Event>)
    requires LegalRun(s, a) && LegalRun(Run(s, a), b) && LegalRun(Run(Run(s, a), b), c) && LegalRun(Run(Run(Run(s, a), b), c), d)
    ensures LegalRun(s, a + b + c + d) && Run(s, a + b + c + d) == Run(Run(Run(Run(s, a), b), c), d)
  {
    RunConcat(s, a, b);
    RunConcat(s, a + b, c);
    RunConcat(s, a + b + c, d);
  }

  function Attempts(l: seq<Act>): nat {
    if l == [] then 0 else (if l[0].Attempt? then 1 else 0) + Attempts(l[1..])
  }

  lemma {:induction false} AttemptsConcat(l: seq<Act>, m: seq<Act>)
    ensures Attempts(l + m) == Attempts(l) + Attempts(m)
    decreases |l|
  {
    if l == [] {
      assert l + m == m;
    } else {
      ConsConcat(l, m);
      AttemptsConcat(l[1..], m);
    }
  }

  lemma AttemptsNext(a: Act, l: seq<Act>)
    ensures Attempts([a] + l) == (if a.Attempt? then 1 else 0) + Attempts(l)
  {
    assert ([a] + l)[1..] == l;
  }

  lemma {:induction false} ShownAttempts(hs: seq<nat>)
    ensures Attempts(Shown(hs)) == |hs|
  {
    if hs != [] {
      var l := [Accepted(hs[0]), Dropped, Attempt];
      AttemptsConcat(l, Shown(hs[1..]));
      var m: seq<Act> := [Attempt];
      assert l == [Accepted(hs[0])] + ([Dropped] + m);
      AttemptsNext(Accepted(hs[0]), [Dropped] + m);
      AttemptsNext(Dropped, m);
      AttemptsNext(Attempt, []);
      assert m == [Attempt] + [];
      ShownAttempts(hs[1..]);
    }
  }

  // ---- a connection that is established -----------------------------------------------------------

  /** A CONNECT that is waited for and says 0, or 0x1a, is accepted; onConnect is then pending, with the timer armed for it. */
  lemma ConnectAccepted(s: State, e: Event)
    requires Legal(s, e) && e.GapConnect? && s.link.status == Connecting && (e.status == 0 || e.status == 0x1a)
    ensures Step(s, e) == s.(link := Link(Connected, Some(e.handle), true, true), log := s.log + [Accepted(e.handle)])
  {}

  /** One that is not waited for is turned away and changes nothing else. */
  lemma ConnectTurned(s: State, e: Event)
    requires Legal(s, e) && e.GapConnect? && s.link.status != Connecting
    ensures Step(s, e) == s.(log := s.log + [Turned(e.handle)])
  {}

  /** Any other status fails the attempt: an asynchronous caller hears of it by callback, a waiting one is released with it. */
  lemma ConnectRefused(s: State, e: Event)
    requires Legal(s, e) && e.GapConnect? && s.link.status == Connecting && e.status != 0 && e.status != 0x1a
    ensures var t := Step(s, e);
            && t.log == s.log + (if !s.config.isAsync then [] else if s.config.deleteOnFail then [OnConnectFail(e.status), Deleted]
                                 else [OnConnectFail(e.status)])
                        + (if s.task then [Release(e.status)] else [])
            && t.link == Link(Disconnected, None, false, false)
            && t.caller == (if s.task then Waiting(Some(e.status)) else s.caller)
  {
    assert s.log + [] == s.log && s.log + [OnConnectFail(e.status)] + [Deleted] == s.log + [OnConnectFail(e.status), Deleted];
  }

  /** The events that end the wait for proof that the link works: its timer, or anything heard on it. */
  predicate Proves(s: State, e: Event) {
    || (e.Timer? && s.link.status == Connected)
    || (e.GapQuiet? && s.link.handle == Some(e.handle))
    || (e.GapReporting? && s.link.handle == Some(e.handle))
  }

  /** Each of them runs a pending onConnect, and then releases a waiting task with 0. */
  lemma ProofConnects(s: State, e: Event)
    requires Legal(s, e) && Proves(s, e) && s.link.pending
    ensures Step(s, e) == s.(link := s.link.(pending := false, armed := false), task := false,
                             caller := if s.task then Waiting(Some(0)) else s.caller,
                             log := s.log + if s.task then [OnConnect, Release(0)] else [OnConnect])
  {
    assert s.log + [OnConnect] + [Release(0)] == s.log + [OnConnect, Release(0)];
  }

  /** With none pending, or when they are about another link, they show nothing but the release of a task that waits for a report. */
  lemma ProofElse(s: State, e: Event)
    requires Legal(s, e) && (e.Timer? || e.GapQuiet? || e.GapReporting?) && !(Proves(s, e) && s.link.pending)
    ensures Step(s, e).log == s.log + if e.GapReporting? && s.link.handle == Some(e.handle) && s.task then [Release(e.rc)] else []
    ensures Step(s, e).link == s.link.(armed := s.link.armed && !(e.Timer? && e.due))
  {}

  /**
   * So a connect() whose attempt is accepted, with a status of 0 or 0x1a, and whose link then
   * shows any sign of life returns true, with onConnect before that.
   */
  lemma ConnectSucceeds(config: Config, status: int, h: nat, proof: Event)
    requires status == 0 || status == 0x1a
    requires proof.Timer? || proof == GapQuiet(h) || (proof.GapReporting? && proof.handle == h)
    ensures var es := [CONNECT, Block] + [GapConnect(status, h), proof] + [Wake];
            LegalRun(Fresh(config), es)
            && Run(Fresh(config), es).log == [Begun, Attempt, Accepted(h), OnConnect, Release(0), Returned(true)]
  {
    var a, b := [CONNECT, Block], [GapConnect(status, h), proof];
    BegunAndWaiting(config);
    var s1 := Run(Fresh(config), a);
    ConnectAccepted(s1, b[0]);
    var s2 := Step(s1, b[0]);
    ProofConnects(s2, proof);
    var s3 := Step(s2, proof);
    TwoSteps(s1, b[0], proof, s3);
    WakeSucceeds(s3);
    RunConcat(Fresh(config), a, b);
    RunConcat(Fresh(config), a + b, [Wake]);
    assert [Begun, Attempt] + [Accepted(h)] + [OnConnect, Release(0)] + [Returned(true)]
           == [Begun, Attempt, Accepted(h), OnConnect, Release(0), Returned(true)];
  }

  lemma WakeSucceeds(s: State)
    requires s.alive && s.caller == Waiting(Some(0))
    ensures LegalRun(s, [Wake]) && Run(s, [Wake]).log == s.log + [Returned(true)]
  {
    assert [Wake][1..] == [];
  }

  // ---- connect() itself ------------------------------------------------------------------------------

  /** The error exit: the client says false, and is disconnected, or deleted. */
  lemma FailShows(s: State)
    ensures var t := Failed(s);
            && t.log == s.log + (if s.config.deleteOnFail then [Deleted, Returned(false)] else [Returned(false)])
            && t.link == s.link.(status := Disconnected) && t.caller == Idle && !t.task && t.alive == (s.alive && !s.config.deleteOnFail)
  {
    assert s.log + [Deleted] + [Returned(false)] == s.log + [Deleted, Returned(false)];
  }

  /** A connect() that passes its checks makes one attempt with all retries ahead; started, it is left to wait, or says true at once. */
  lemma BeginShows(s: State, e: Event)
    requires Legal(s, e) && e.Begin?
    ensures var t := Step(s, e);
            if !e.synced || s.link.status != Disconnected || e.nullAddress then t == Failed(s)
            else if e.attemptRc != 0 then
              t == Failed(s.(link := s.link.(status := Connecting, pending := false), config := s.config.(isAsync := e.isAsync),
                             retryCount := 0, log := s.log + [Begun, Attempt]))
            else && t.log == s.log + (if e.isAsync then [Begun, Attempt, Returned(true)] else [Begun, Attempt])
                 && t.caller == (if e.isAsync then Idle else Starting) && t.retryCount == 0
                 && t.link == s.link.(status := Connecting, pending := false)
  {
    assert s.log + [Begun] + [Attempt] == s.log + [Begun, Attempt];
    assert s.log + [Begun, Attempt] + [Returned(true)] == s.log + [Begun, Attempt, Returned(true)];
  }

  /** Released with 0 it returns true, with anything else it fails. */
  lemma WakeShows(s: State)
    requires Legal(s, Wake)
    ensures Step(s, Wake) == if s.caller.flag == Some(0) then s.(caller := Idle, task := false, log := s.log + [Returned(true)])
                             else Failed(s)
  {}

  // ---- every connect() returns, once ----------------------------------------------------------------

  function Returns(l: seq<Act>): nat {
    if l == [] then 0 else (if l[0].Returned? then 1 else 0) + Returns(l[1..])
  }

  function Begins(es: seq<Event>): nat {
    if es == [] then 0 else (if es[0].Begin? then 1 else 0) + Begins(es[1..])
  }

  function Inside(s: State): nat { if s.caller.Idle? then 0 else 1 }

  lemma {:induction false} ReturnsNext(l: seq<Act>, a: Act)
    ensures Returns(l + [a]) == Returns(l) + if a.Returned? then 1 else 0
    decreases |l|
  {
    if l == [] {
      assert [a][1..] == [];
    } else {
      ConsConcat(l, [a]);
      ReturnsNext(l[1..], a);
    }
  }

  /** No entry of a return, and the caller stays inside or outside. */
  predicate StaysIn(s: State, t: State) { Returns(t.log) == Returns(s.log) && Inside(t) == Inside(s) }

  lemma NoteStays(s: State, a: Act)
    requires !a.Returned?
    ensures StaysIn(s, Note(s, a))
  {
    ReturnsNext(s.log, a);
  }

  lemma ReleasedStays(s: State, rc: int)
    requires s.task ==> s.caller.Waiting?
    ensures StaysIn(s, Released(s, rc))
  {
    ReturnsNext(s.log, Release(rc));
  }

  lemma CompleteStays(s: State)
    requires s.task ==> s.caller.Waiting?
    ensures StaysIn(s, Complete(s))
  {
    ReturnsNext(s.log, OnConnect);
    ReturnsNext(s.log + [OnConnect], Release(0));
  }

  lemma FailedReturns(s: State)
    ensures Returns(Failed(s).log) == Returns(s.log) + 1 && Failed(s).caller.Idle?
  {
    ReturnsNext(s.log, Deleted);
    ReturnsNext(s.log, Returned(false));
    ReturnsNext(s.log + [Deleted], Returned(false));
  }

  lemma FinishReturns(s: State, rc: int)
    ensures Returns(Finish(s, rc).log) == Returns(s.log) + 1 && Finish(s, rc).caller.Idle?
  {
    if rc != 0 { FailedReturns(s); } else { ReturnsNext(s.log, Returned(true)); }
  }

  lemma BeginReturns(s: State, e: Event)
    requires e.Begin? && s.caller.Idle?
    ensures Returns(OnBegin(s, e).log) + Inside(OnBegin(s, e)) == Returns(s.log) + 1
  {
    FailedReturns(s);
    var s1 := BegunState(s, e.isAsync);
    ReturnsNext(s.log, Begun);
    ReturnsNext(s.log + [Begun], Attempt);
    FailedReturns(s1);
    ReturnsNext(s1.log, Returned(true));
  }

  lemma ConnectStays(s: State, status: int, handle: nat)
    requires s.task ==> s.caller.Waiting?
    ensures StaysIn(s, OnGapConnect(s, status, handle))
  {
    if s.link.status != Connecting {
      NoteStays(s, Turned(handle));
    } else if status == 0 || status == UNSUPPORTED_REMOTE_FEATURE {
      NoteStays(s.(link := Link(Connected, Some(handle), true, true)), Accepted(handle));
    } else {
      RefuseStays(s, status);
      ReleasedStays(Refuse(s, status), status);
    }
  }

  lemma RefuseStays(s: State, status: int)
    ensures StaysIn(s, Refuse(s, status)) && Refuse(s, status).task == s.task && Refuse(s, status).caller == s.caller
  {
    var s1 := s.(link := Link(Disconnected, None, false, false));
    NoteStays(s1, OnConnectFail(status));
    NoteStays(Note(s1, OnConnectFail(status)).(alive := false), Deleted);
  }

  lemma LostStays(s: State, reason: NonZero)
    requires s.task ==> s.caller.Waiting?
    ensures StaysIn(s, Lost(s, reason))
  {
    var t := LostIs(s, reason);
    NoteStays(s, if reason == ESTABLISHMENT_FAILED then OnConnectFail(reason) else OnDisconnect(reason));
    NoteStays(t.(alive := false), Deleted);
    ReleasedStays(t, reason);
    ReleasedStays(Delete(t), reason);
    ReleasedStays(t.(config := t.config.(deleteOnFail := true)), reason);
  }

  lemma DropStays(s: State, reason: NonZero, retryRc: int)
    requires s.task ==> s.caller.Waiting?
    ensures StaysIn(s, OnGapDisconnect(s, reason, retryRc))
  {
    var s1 := DropLink(s);
    ReturnsNext(s.log, Dropped);
    ReturnsNext(s1.log, Attempt);
    LostStays(s1, reason);
    LostStays(Retrying(s1), reason);
  }

  lemma StepReturns(s: State, e: Event)
    requires Good(s) && Legal(s, e)
    ensures Returns(Step(s, e).log) + Inside(Step(s, e)) == Returns(s.log) + Inside(s) + if e.Begin? then 1 else 0
  {
    match e
    case Begin(_, _, _, _) => BeginReturns(s, e);
    case Wake => FinishReturns(s, s.caller.flag.value);
    case Expire => FinishReturns(s, if s.link.status != Connected then ETIMEOUT else 0);
    case GapConnect(status, handle) => ConnectStays(s, status, handle);
    case GapDisconnect(reason, retryRc) => DropStays(s, reason, retryRc);
    case GapQuiet(_) => CompleteStays(s);
    case GapReporting(_, rc) => CompleteStays(s); ReleasedStays(s, rc);
    case Timer(due) => CompleteStays(if due then s.(link := s.link.(armed := false)) else s);
    case _ =>
  }

  lemma {:induction false} RunReturns(s: State, es: seq<Event>)
    requires Good(s) && LegalRun(s, es)
    ensures Returns(Run(s, es).log) + Inside(Run(s, es)) == Returns(s.log) + Inside(s) + Begins(es)
    decreases |es|
  {
    if es != [] {
      GoodStep(s, es[0]);
      StepReturns(s, es[0]);
      RunReturns(Step(s, es[0]), es[1..]);
    }
  }

  /** Over any run as many connect()s have returned as have begun, but for one that may be going on. */
  lemma EachReturnsOnce(config: Config, es: seq<Event>)
    requires LegalRun(Fresh(config), es)
    ensures var s := Run(Fresh(config), es); Returns(s.log) + (if s.caller.Idle? then 0 else 1) == Begins(es)
  {
    RunReturns(Fresh(config), es);
  }
}
