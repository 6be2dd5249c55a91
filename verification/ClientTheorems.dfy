/** What every run of the client keeps. */
module ClientTheorems {
  import opened Base
  import opened ClientSpec

  // ---- reading the log ------------------------------------------------------------------

  /**
   * `open`: a CONNECT was accepted that no onConnect or DISCONNECT has followed.
   * `ran`: onConnect ran since connect() last began.  `attempts`: since then.
   * `answered`: each onConnect came while open.
   */
  datatype Reading = Reading(open: bool, ran: bool, attempts: nat, answered: bool)

  function Next(r: Reading, a: Act): Reading {
    match a
    case Begun => r.(open := false, ran := false, attempts := 0)
    case Attempt => r.(attempts := r.attempts + 1)
    case Accepted(_) => r.(open := true)
    case Dropped => r.(open := false)
    case OnConnect => r.(open := false, ran := true, answered := r.answered && r.open)
    case _ => r
  }

  function Read(log: seq<Act>): Reading {
    if log == [] then Reading(false, false, 0, true)
    else Next(Read(log[..|log| - 1]), log[|log| - 1])
  }

  lemma Snoc(log: seq<Act>, a: Act)
    ensures Read(log + [a]) == Next(Read(log), a)
  {
    assert (log + [a])[..|log|] == log;
  }

  lemma Notes(s: State, a: Act)
    ensures Read(Note(s, a).log) == Next(Read(s.log), a)
  {
    Snoc(s.log, a);
  }

  /** Entries the reading passes over. */
  predicate Quiet(a: Act) {
    a.Turned? || a.OnConnectFail? || a.OnDisconnect? || a.Release? || a.Returned? || a.Deleted?
  }

  /** The invariant that needs no assumption on the caller. */
  predicate Good(s: State) {
    var r := Read(s.log);
    && r.answered && r.open == s.link.pending
    && (s.link.pending || s.link.status == Connected ==> s.link.handle.Some?)
    && (s.link.pending && s.link.status == Connected ==> s.link.armed)
    && (s.link.status == Connecting ==> !s.link.pending)
    && (s.task ==> s.caller.Waiting?)
    && (s.caller.Waiting? && s.caller.flag.None? ==> s.task)
    && s.retryCount <= 7
    && r.attempts <= 1 + s.retryCount
  }

  lemma GoodComplete(s: State)
    requires Good(s)
    ensures Good(Complete(s)) && !Complete(s).link.pending
    ensures Complete(s).link.handle == s.link.handle && Complete(s).link.status == s.link.status
  {
    if s.link.pending {
      var s1 := Note(s.(link := s.link.(pending := false, armed := false), task := false), OnConnect);
      Notes(s.(link := s1.link, task := false), OnConnect);
      Notes(s1.(caller := Waiting(Some(0))), Release(0));
    }
  }

  lemma GoodNote(s: State, a: Act)
    requires Good(s) && Quiet(a)
    ensures Good(Note(s, a)) && Note(s, a).link == s.link
  {
    Notes(s, a);
  }

  lemma GoodDelete(s: State)
    requires Good(s)
    ensures Good(Delete(s)) && Delete(s).link == s.link
  {
    GoodNote(s.(alive := false), Deleted);
  }

  lemma GoodReleased(s: State, rc: int)
    requires Good(s)
    ensures Good(Released(s, rc))
  {
    if s.task { GoodNote(s.(caller := Waiting(Some(rc))), Release(rc)); }
  }

  lemma GoodFailed(s: State)
    requires Good(s.(task := false, caller := Idle))
    ensures Good(Failed(s))
  {
    var s1 := s.(link := s.link.(status := Disconnected), caller := Idle, task := false);
    assert Good(s1);
    GoodDelete(s1);
    GoodNote(if s.config.deleteOnFail then Delete(s1) else s1, Returned(false));
  }

  /** connect() past its checks, with the first attempt made. */
  function BegunState(s: State, isAsync: bool): State {
    Note(Note(s.(link := s.link.(status := Connecting, pending := false),
                 config := s.config.(isAsync := isAsync), retryCount := 0), Begun), Attempt)
  }

  lemma GoodBegun(s: State, isAsync: bool)
    requires Good(s)
    ensures Good(BegunState(s, isAsync)) && BegunState(s, isAsync).caller == s.caller
  {
    var s0 := s.(link := s.link.(status := Connecting, pending := false),
                 config := s.config.(isAsync := isAsync), retryCount := 0);
    Notes(s0, Begun);
    Notes(Note(s0, Begun), Attempt);
  }

  lemma GoodBegin(s: State, e: Event)
    requires Good(s) && e.Begin? && s.caller.Idle?
    ensures Good(OnBegin(s, e))
  {
    var s1 := BegunState(s, e.isAsync);
    GoodBegun(s, e.isAsync);
    if !e.synced || s.link.status != Disconnected || e.nullAddress {
      GoodFailed(s);
    } else if e.attemptRc != 0 {
      assert OnBegin(s, e) == Failed(s1);
      GoodFailed(s1);
    } else if e.isAsync {
      assert OnBegin(s, e) == Note(s1, Returned(true));
      Notes(s1, Returned(true));
    } else {
      assert OnBegin(s, e) == s1.(caller := Starting);
    }
  }

  lemma GoodFinish(s: State, rc: int)
    requires Good(s)
    ensures Good(Finish(s, rc))
  {
    if rc != 0 { GoodFailed(s); } else { Notes(s.(caller := Idle, task := false), Returned(true)); }
  }

  lemma GoodAccept(s: State, handle: nat)
    requires Good(s)
    ensures Good(Note(s.(link := Link(Connected, Some(handle), true, true)), Accepted(handle)))
  {
    var t := s.(link := Link(Connected, Some(handle), true, true));
    Notes(t, Accepted(handle));
    var r := Read(s.log);
    assert Read(Note(t, Accepted(handle)).log) == r.(open := true);
  }

  lemma GoodConnect(s: State, status: int, handle: nat)
    requires Good(s)
    ensures Good(OnGapConnect(s, status, handle))
  {
    if s.link.status != Connecting {
      GoodNote(s, Turned(handle));
    } else if status == 0 || status == UNSUPPORTED_REMOTE_FEATURE {
      GoodAccept(s, handle);
    } else {
      GoodRefuse(s, status);
      GoodReleased(Refuse(s, status), status);
    }
  }

  lemma GoodCleared(s: State, link: Link)
    requires Good(s) && !s.link.pending && link.status == Disconnected && !link.pending
    ensures Good(s.(link := link))
  {}

  lemma GoodRefuse(s: State, status: int)
    requires Good(s) && s.link.status == Connecting
    ensures Good(Refuse(s, status))
  {
    var s1 := s.(link := Link(Disconnected, None, false, false));
    GoodCleared(s, s1.link);
    GoodNote(s1, OnConnectFail(status));
    GoodDelete(Note(s1, OnConnectFail(status)));
  }

  /** The link is given up, before anybody is released. */
  function LostLink(s: State, a: Act): State {
    Note(s, a).(link := s.link.(handle := None, status := Disconnected))
  }

  lemma LostIs(s: State, reason: NonZero) returns (t: State)
    ensures t == LostLink(s, if reason == ESTABLISHMENT_FAILED then OnConnectFail(reason) else OnDisconnect(reason))
    ensures || Lost(s, reason) == Released(t.(config := t.config.(deleteOnFail := true)), reason)
            || Lost(s, reason) == Released(Delete(t), reason) || Lost(s, reason) == Released(t, reason)
  {
    t := LostLink(s, if reason == ESTABLISHMENT_FAILED then OnConnectFail(reason) else OnDisconnect(reason));
  }

  lemma GoodLostLink(s: State, a: Act)
    requires Good(s) && !s.link.pending && Quiet(a)
    ensures Good(LostLink(s, a))
  {
    GoodNote(s, a);
    GoodCleared(Note(s, a), LostLink(s, a).link);
  }

  lemma GoodLost(s: State, reason: NonZero)
    requires Good(s) && !s.link.pending
    ensures Good(Lost(s, reason))
  {
    var t := LostIs(s, reason);
    GoodLostLink(s, if reason == ESTABLISHMENT_FAILED then OnConnectFail(reason) else OnDisconnect(reason));
    GoodOut(t, reason);
  }

  /** The client deletes itself or not, with a task to release or not. */
  lemma GoodOut(s: State, reason: int)
    requires Good(s)
    ensures Good(Released(s.(config := s.config.(deleteOnFail := true)), reason))
    ensures Good(Released(Delete(s), reason)) && Good(Released(s, reason))
  {
    GoodReleased(s.(config := s.config.(deleteOnFail := true)), reason);
    GoodReleased(s, reason);
    GoodDelete(s);
    GoodReleased(Delete(s), reason);
  }

  lemma GoodDropLink(s: State)
    requires Good(s)
    ensures Good(DropLink(s)) && !DropLink(s).link.pending
    ensures DropLink(s).retryCount == s.retryCount && DropLink(s).config == s.config
  {
    Notes(s.(link := s.link.(pending := false, armed := false)), Dropped);
  }

  lemma GoodRetrying(s: State)
    requires Good(s) && s.retryCount < 7 && !s.link.pending
    ensures Good(Retrying(s)) && !Retrying(s).link.pending
  {
    Notes(s.(link := s.link.(handle := None, status := Connecting), retryCount := s.retryCount + 1), Attempt);
  }

  lemma GoodAfterDrop(s: State, reason: NonZero, retryRc: int)
    requires Good(s) && !s.link.pending
    ensures Good(AfterDrop(s, reason, retryRc))
  {
    if reason == ESTABLISHMENT_FAILED && s.retryCount < s.config.retries {
      GoodRetrying(s);
      GoodLost(Retrying(s), reason);
    } else {
      GoodLost(s, reason);
    }
  }

  lemma GoodTimer(s: State, due: bool)
    requires Good(s)
    ensures Good(OnTimer(s, due))
  {
    GoodComplete(s);
    if s.link.status == Connected && due {
      CompleteDisarmed(s);
    }
  }

  lemma CompleteDisarmed(s: State)
    requires Good(s)
    ensures Good(Complete(s.(link := s.link.(armed := false))))
  {
    GoodComplete(s);
    var s1 := s.(link := s.link.(armed := false));
    assert s.link.pending ==> Complete(s1) == Complete(s);
  }

  lemma GoodStep(s: State, e: Event)
    requires Good(s) && Legal(s, e)
    ensures Good(Step(s, e))
  {
    match e
    case Begin(_, _, _, _) => GoodBegin(s, e);
    case Wake => GoodFinish(s, s.caller.flag.value);
    case Expire => GoodFinish(s, if s.link.status != Connected then ETIMEOUT else 0);
    case GapConnect(status, handle) => GoodConnect(s, status, handle);
    case GapDisconnect(reason, retryRc) => GoodDropLink(s); GoodAfterDrop(DropLink(s), reason, retryRc);
    case GapQuiet(_) => GoodComplete(s);
    case GapReporting(_, rc) => GoodComplete(s); GoodReleased(s, rc);
    case Timer(due) => GoodTimer(s, due);
    case _ =>
  }

  lemma {:induction false} GoodRun(s: State, es: seq<Event>)
    requires Good(s) && LegalRun(s, es)
    ensures Good(Run(s, es))
    decreases |es|
  {
    if es != [] {
      GoodStep(s, es[0]);
      GoodRun(Step(s, es[0]), es[1..]);
    }
  }

  // ---- what the reading means --------------------------------------------------------------

  /** The i-th entry answers an accepted CONNECT that nothing has answered or dropped since. */
  ghost predicate Answers(log: seq<Act>, i: nat) {
    exists k: nat :: k < i <= |log| && log[k].Accepted?
                     && forall m :: k < m < i ==> !log[m].OnConnect? && !log[m].Dropped?
  }

  lemma AnswersStay(front: seq<Act>, a: Act, i: nat)
    requires i <= |front| && Answers(front, i)
    ensures Answers(front + [a], i)
  {
    var k: nat :| k < i <= |front| && front[k].Accepted?
                  && forall m :: k < m < i ==> !front[m].OnConnect? && !front[m].Dropped?;
    assert (front + [a])[k].Accepted?;
  }

  lemma AnswersOn(front: seq<Act>, a: Act)
    requires a.Accepted? || (Answers(front, |front|) && !a.OnConnect? && !a.Dropped?)
    ensures Answers(front + [a], |front| + 1)
  {
    var log, n := front + [a], |front|;
    if a.Accepted? {
      assert log[n].Accepted?;
    } else {
      var k: nat :| k < n <= |front| && front[k].Accepted?
                    && forall m :: k < m < n ==> !front[m].OnConnect? && !front[m].Dropped?;
      assert log[k].Accepted?;
    }
  }

  lemma {:induction false} OpenMeans(log: seq<Act>)
    ensures Read(log).open ==> Answers(log, |log|)
    decreases |log|
  {
    if log != [] {
      var n := |log| - 1;
      OpenMeans(log[..n]);
      assert log == log[..n] + [log[n]];
      if Read(log).open { AnswersOn(log[..n], log[n]); }
    }
  }

  lemma {:induction false} AnsweredMeans(log: seq<Act>, i: nat)
    requires Read(log).answered && i < |log| && log[i].OnConnect?
    ensures Answers(log, i)
    decreases |log|
  {
    var n := |log| - 1;
    var front, a := log[..n], log[n];
    assert log == front + [a];
    if i < n { AnsweredMeans(front, i); } else { OpenMeans(front); }
    AnswersStay(front, a, i);
  }

  /**
   * In every run, each onConnect answers one accepted CONNECT event, at most once
   * and never after its DISCONNECT; a pending callback has a valid handle, and while
   * connected the timer that will run it; one connect() makes at most eight attempts.
   */
  lemma ConnectRun(config: Config, es: seq<Event>)
    requires LegalRun(Fresh(config), es)
    ensures var s := Run(Fresh(config), es);
            && (forall i: nat :: i < |s.log| && s.log[i].OnConnect? ==> Answers(s.log, i))
            && (s.link.pending ==> s.link.handle.Some? && Answers(s.log, |s.log|))
            && (s.link.pending && s.link.status == Connected ==> s.link.armed)
            && Read(s.log).attempts <= 8
  {
    GoodRun(Fresh(config), es);
    var log := Run(Fresh(config), es).log;
    OpenMeans(log);
    forall i: nat | i < |log| && log[i].OnConnect? ensures Answers(log, i) { AnsweredMeans(log, i); }
  }

  /** Two onConnects never answer the same CONNECT. */
  lemma AnswersDiffer(log: seq<Act>, i: nat, j: nat, k: nat)
    requires k < i < j < |log| && log[i].OnConnect? && log[j].OnConnect? && log[k].Accepted?
    ensures !(forall m :: k < m < j ==> !log[m].OnConnect? && !log[m].Dropped?)
  {
    assert log[i].OnConnect?;
  }

  // ---- the retry bound for a fixed configuration ---------------------------------------------

  predicate KeepsRetries(es: seq<Event>, n: Retries) {
    forall i :: 0 <= i < |es| && es[i].SetConfig? ==> es[i].config.retries == n
  }

  predicate Within(s: State, n: Retries) { s.retryCount <= n == s.config.retries }

  lemma WithinFinish(s: State, rc: int, n: Retries)
    requires Within(s, n)
    ensures Within(Finish(s, rc), n) && Within(Released(s, rc), n) && Within(Complete(s), n)
  {}

  lemma WithinBegin(s: State, e: Event, n: Retries)
    requires Within(s, n) && e.Begin?
    ensures Within(OnBegin(s, e), n)
  {
    WithinFinish(s, 1, n);
    WithinFinish(BegunState(s, e.isAsync), 1, n);
  }

  lemma WithinConnect(s: State, status: int, handle: nat, n: Retries)
    requires Within(s, n)
    ensures Within(OnGapConnect(s, status, handle), n)
  {
    WithinFinish(Refuse(s, status), status, n);
  }

  lemma WithinLost(s: State, reason: NonZero, n: Retries)
    requires Within(s, n)
    ensures Within(Lost(s, reason), n)
  {}

  lemma WithinAfterDrop(s: State, reason: NonZero, retryRc: int, n: Retries)
    requires Within(s, n)
    ensures Within(AfterDrop(s, reason, retryRc), n)
  {
    WithinLost(s, reason, n);
    if s.retryCount < n { WithinLost(Retrying(s), reason, n); }
  }

  lemma RetriesStep(s: State, e: Event, n: Retries)
    requires Legal(s, e) && Within(s, n) && (e.SetConfig? ==> e.config.retries == n)
    ensures Within(Step(s, e), n)
  {
    match e
    case Begin(_, _, _, _) => WithinBegin(s, e, n);
    case Wake => WithinFinish(s, s.caller.flag.value, n);
    case Expire => WithinFinish(s, if s.link.status != Connected then ETIMEOUT else 0, n);
    case GapConnect(status, handle) => WithinConnect(s, status, handle, n);
    case GapDisconnect(reason, retryRc) => WithinAfterDrop(DropLink(s), reason, retryRc, n);
    case GapQuiet(_) => WithinFinish(s, 0, n);
    case GapReporting(_, rc) => WithinFinish(s, rc, n);
    case Timer(_) => WithinFinish(s, 0, n); WithinFinish(s.(link := s.link.(armed := false)), 0, n);
    case _ =>
  }

  lemma {:induction false} RetriesRun(s: State, es: seq<Event>, n: Retries)
    requires LegalRun(s, es) && Within(s, n) && KeepsRetries(es, n)
    ensures Within(Run(s, es), n)
    decreases |es|
  {
    if es != [] {
      RetriesStep(s, es[0], n);
      assert forall i :: 0 <= i < |es| - 1 ==> es[1..][i] == es[i + 1];
      RetriesRun(Step(s, es[0]), es[1..], n);
    }
  }

  /** With the number of retries left alone, one connect() makes at most one attempt more than that. */
  lemma AttemptsBounded(config: Config, es: seq<Event>)
    requires LegalRun(Fresh(config), es) && KeepsRetries(es, config.retries)
    ensures Read(Run(Fresh(config), es).log).attempts <= 1 + config.retries
  {
    GoodRun(Fresh(config), es);
    RetriesRun(Fresh(config), es, config.retries);
  }

  // ---- releases with result 0 ------------------------------------------------------------------

  /** Every release with result 0 from this entry on came after onConnect ran for its connect(). */
  predicate Fair(log: seq<Act>, from: nat) {
    log == []
    || (var n := |log| - 1;
        && Fair(log[..n], from)
        && (from <= n && log[n] == Release(0) ==> Read(log[..n]).ran))
  }

  lemma FairNotes(s: State, a: Act, from: nat)
    requires Fair(s.log, from) && (a == Release(0) ==> Read(s.log).ran)
    ensures Read(Note(s, a).log) == Next(Read(s.log), a) && Fair(Note(s, a).log, from)
  {
    Snoc(s.log, a);
    assert (s.log + [a])[..|s.log|] == s.log;
  }

  lemma FairNote(s: State, a: Act, from: nat)
    requires Fair(s.log, from) && Quiet(a) && a != Release(0)
    ensures Fair(Note(s, a).log, from)
  {
    FairNotes(s, a, from);
  }

  lemma {:induction false} NothingYet(log: seq<Act>, from: nat)
    requires |log| <= from
    ensures Fair(log, from)
    decreases |log|
  {
    if log != [] { NothingYet(log[..|log| - 1], from); }
  }

  /** In this step a connect() passes its checks, and its task is going to wait. */
  predicate Starts(s: State, e: Event) {
    e.Begin? && e.synced && !e.nullAddress && s.link.status == Disconnected && !e.isAsync && e.attemptRc == 0
  }

  /** It does so only while no handle is held. */
  predicate Checked(s: State, e: Event) { Starts(s, e) ==> s.link.handle.None? }

  predicate CheckedRun(s: State, es: seq<Event>)
    requires LegalRun(s, es)
    decreases |es|
  {
    es == [] || (Checked(s, es[0]) && CheckedRun(Step(s, es[0]), es[1..]))
  }

  /** For a task inside connect(): a connection that is no longer pending has had its onConnect. */
  predicate Clean(s: State, from: nat) {
    && Fair(s.log, from)
    && (!s.caller.Idle? && s.link.handle.Some? && !s.link.pending ==> Read(s.log).ran)
  }

  lemma CleanComplete(s: State, from: nat)
    requires Clean(s, from)
    ensures Clean(Complete(s), from)
  {
    if s.link.pending {
      var s0 := s.(link := s.link.(pending := false, armed := false), task := false);
      FairNotes(s0, OnConnect, from);
      FairNotes(Note(s0, OnConnect).(caller := Waiting(Some(0))), Release(0), from);
    }
  }

  lemma CleanReleased(s: State, rc: int, from: nat)
    requires Good(s) && Clean(s, from) && (rc == 0 ==> s.task ==> s.link.handle.Some? && !s.link.pending)
    ensures Clean(Released(s, rc), from)
  {
    if s.task { FairNotes(s.(caller := Waiting(Some(rc))), Release(rc), from); }
  }

  lemma FairDelete(s: State, from: nat)
    requires Fair(s.log, from)
    ensures Fair(Delete(s).log, from)
  {
    FairNote(s.(alive := false), Deleted, from);
  }

  lemma CleanFailed(s: State, from: nat)
    requires Fair(s.log, from)
    ensures Clean(Failed(s), from)
  {
    var s1 := s.(link := s.link.(status := Disconnected), caller := Idle, task := false);
    FairDelete(s1, from);
    FairNote(if s.config.deleteOnFail then Delete(s1) else s1, Returned(false), from);
  }

  lemma CleanBegun(s: State, isAsync: bool, from: nat)
    requires Fair(s.log, from)
    ensures Fair(BegunState(s, isAsync).log, from)
  {
    var s0 := s.(link := s.link.(status := Connecting, pending := false),
                 config := s.config.(isAsync := isAsync), retryCount := 0);
    FairNotes(s0, Begun, from);
    FairNotes(Note(s0, Begun), Attempt, from);
  }

  lemma CleanBegin(s: State, e: Event, from: nat)
    requires Fair(s.log, from) && e.Begin? && Legal(s, e) && Checked(s, e)
    ensures Clean(OnBegin(s, e), from)
  {
    var s1 := BegunState(s, e.isAsync);
    CleanBegun(s, e.isAsync, from);
    if !e.synced || s.link.status != Disconnected || e.nullAddress {
      CleanFailed(s, from);
    } else if e.attemptRc != 0 {
      assert OnBegin(s, e) == Failed(s1);
      CleanFailed(s1, from);
    } else if e.isAsync {
      assert OnBegin(s, e) == Note(s1, Returned(true));
      FairNotes(s1, Returned(true), from);
    } else {
      assert OnBegin(s, e) == s1.(caller := Starting);
    }
  }

  lemma CleanAccept(s: State, handle: nat, from: nat)
    requires Clean(s, from)
    ensures Clean(Note(s.(link := Link(Connected, Some(handle), true, true)), Accepted(handle)), from)
  {
    FairNotes(s.(link := Link(Connected, Some(handle), true, true)), Accepted(handle), from);
  }

  /** A release with a failure, once no handle is held. */
  lemma CleanRelease(s: State, rc: int, from: nat)
    requires Fair(s.log, from) && s.link.handle.None? && rc != 0
    ensures Clean(Released(s, rc), from)
  {
    if s.task { FairNote(s.(caller := Waiting(Some(rc))), Release(rc), from); }
  }

  lemma CleanRefuse(s: State, status: int, from: nat)
    requires Fair(s.log, from) && status != 0
    ensures Clean(Released(Refuse(s, status), status), from)
  {
    var s1 := s.(link := Link(Disconnected, None, false, false));
    FairNote(s1, OnConnectFail(status), from);
    FairDelete(Note(s1, OnConnectFail(status)), from);
    CleanRelease(Refuse(s, status), status, from);
  }

  lemma CleanConnect(s: State, status: int, handle: nat, from: nat)
    requires Clean(s, from)
    ensures Clean(OnGapConnect(s, status, handle), from)
  {
    if s.link.status != Connecting {
      FairNotes(s, Turned(handle), from);
    } else if status == 0 || status == UNSUPPORTED_REMOTE_FEATURE {
      CleanAccept(s, handle, from);
    } else {
      CleanRefuse(s, status, from);
    }
  }

  lemma CleanLost(s: State, reason: NonZero, from: nat)
    requires Fair(s.log, from)
    ensures Clean(Lost(s, reason), from)
  {
    var early := reason == ESTABLISHMENT_FAILED;
    var s1 := Note(s, if early then OnConnectFail(reason) else OnDisconnect(reason));
    FairNote(s, if early then OnConnectFail(reason) else OnDisconnect(reason), from);
    CleanOut(s1.(link := s1.link.(handle := None, status := Disconnected)), reason, from);
  }

  lemma CleanOut(s: State, reason: NonZero, from: nat)
    requires Fair(s.log, from) && s.link.handle.None?
    ensures Clean(Released(s.(config := s.config.(deleteOnFail := true)), reason), from)
    ensures Clean(Released(Delete(s), reason), from) && Clean(Released(s, reason), from)
  {
    CleanRelease(s.(config := s.config.(deleteOnFail := true)), reason, from);
    CleanRelease(s, reason, from);
    FairDelete(s, from);
    CleanRelease(Delete(s), reason, from);
  }

  lemma FairDropLink(s: State, from: nat)
    requires Fair(s.log, from)
    ensures Fair(DropLink(s).log, from)
  {
    FairNotes(s.(link := s.link.(pending := false, armed := false)), Dropped, from);
  }

  lemma CleanRetrying(s: State, from: nat)
    requires Fair(s.log, from)
    ensures Clean(Retrying(s), from)
  {
    FairNotes(s.(link := s.link.(handle := None, status := Connecting), retryCount := s.retryCount + 1), Attempt, from);
  }

  lemma CleanDisconnect(s: State, reason: NonZero, retryRc: int, from: nat)
    requires Fair(s.log, from)
    ensures Clean(OnGapDisconnect(s, reason, retryRc), from)
  {
    var s1 := DropLink(s);
    FairDropLink(s, from);
    if reason == ESTABLISHMENT_FAILED && s1.retryCount < s1.config.retries {
      CleanRetrying(s1, from);
      CleanLost(Retrying(s1), reason, from);
    } else {
      CleanLost(s1, reason, from);
    }
  }

  lemma CleanFinish(s: State, rc: int, from: nat)
    requires Fair(s.log, from)
    ensures Clean(Finish(s, rc), from)
  {
    if rc != 0 { CleanFailed(s, from); } else { FairNotes(s.(caller := Idle, task := false), Returned(true), from); }
  }

  lemma CleanTimer(s: State, due: bool, from: nat)
    requires Clean(s, from)
    ensures Clean(OnTimer(s, due), from)
  {
    CleanComplete(s, from);
    var s1 := s.(link := s.link.(armed := false));
    assert s.link.pending ==> Complete(s1) == Complete(s);
  }

  lemma CleanStep(s: State, e: Event, from: nat)
    requires Good(s) && Clean(s, from) && Legal(s, e) && Checked(s, e)
    ensures Clean(Step(s, e), from)
  {
    match e
    case Begin(_, _, _, _) => CleanBegin(s, e, from);
    case Wake => CleanFinish(s, s.caller.flag.value, from);
    case Expire => CleanFinish(s, if s.link.status != Connected then ETIMEOUT else 0, from);
    case GapConnect(status, handle) => CleanConnect(s, status, handle, from);
    case GapDisconnect(reason, retryRc) => CleanDisconnect(s, reason, retryRc, from);
    case GapQuiet(_) => CleanComplete(s, from);
    case GapReporting(handle, rc) =>
      CleanComplete(s, from);
      if s.link.handle == Some(handle) && !s.link.pending { CleanReleased(s, rc, from); }
    case Timer(due) => CleanTimer(s, due, from);
    case _ =>
  }

  lemma {:induction false} CleanRun(s: State, es: seq<Event>, from: nat)
    requires Good(s) && Clean(s, from) && LegalRun(s, es) && CheckedRun(s, es)
    ensures Clean(Run(s, es), from)
    decreases |es|
  {
    if es != [] {
      GoodStep(s, es[0]);
      CleanStep(s, es[0], from);
      CleanRun(Step(s, es[0]), es[1..], from);
    }
  }

  /** onConnect ran between the last connect() that began before the i-th entry and that entry. */
  ghost predicate AfterConnect(log: seq<Act>, i: nat) {
    exists k: nat :: k < i <= |log| && log[k].OnConnect? && forall m :: k < m < i ==> !log[m].Begun?
  }

  lemma AfterStays(front: seq<Act>, a: Act, i: nat)
    requires i <= |front| && AfterConnect(front, i)
    ensures AfterConnect(front + [a], i)
  {
    var k: nat :| k < i <= |front| && front[k].OnConnect? && forall m :: k < m < i ==> !front[m].Begun?;
    assert (front + [a])[k].OnConnect?;
  }

  lemma AfterOn(front: seq<Act>, a: Act)
    requires a.OnConnect? || (AfterConnect(front, |front|) && !a.Begun?)
    ensures AfterConnect(front + [a], |front| + 1)
  {
    var log, n := front + [a], |front|;
    if a.OnConnect? {
      assert log[n].OnConnect?;
    } else {
      var k: nat :| k < n <= |front| && front[k].OnConnect? && forall m :: k < m < n ==> !front[m].Begun?;
      assert log[k].OnConnect?;
    }
  }

  lemma {:induction false} RanMeans(log: seq<Act>)
    ensures Read(log).ran ==> AfterConnect(log, |log|)
    decreases |log|
  {
    if log != [] {
      var n := |log| - 1;
      RanMeans(log[..n]);
      assert log == log[..n] + [log[n]];
      if Read(log).ran { AfterOn(log[..n], log[n]); }
    }
  }

  lemma {:induction false} FairMeans(log: seq<Act>, from: nat, i: nat)
    requires Fair(log, from) && from <= i < |log| && log[i] == Release(0)
    ensures AfterConnect(log, i)
    decreases |log|
  {
    var n := |log| - 1;
    var front, a := log[..n], log[n];
    assert log == front + [a];
    if i < n { FairMeans(front, from, i); } else { RanMeans(front); }
    AfterStays(front, a, i);
  }

  /**
   * If each connect() begins without a handle, the waiting task is released with
   * result 0 only after onConnect ran for its connect().
   */
  lemma ReleaseAfterConnect(config: Config, es: seq<Event>)
    requires LegalRun(Fresh(config), es) && CheckedRun(Fresh(config), es)
    ensures var log := Run(Fresh(config), es).log;
            forall i: nat :: i < |log| && log[i] == Release(0) ==> AfterConnect(log, i)
  {
    CleanRun(Fresh(config), es, 0);
    var log := Run(Fresh(config), es).log;
    forall i: nat | i < |log| && log[i] == Release(0) ensures AfterConnect(log, i) { FairMeans(log, 0, i); }
  }

  // ---- when a connect() can be released too soon --------------------------------------------------

  const CONNECT := Begin(true, false, false, 0)

  predicate NoBegin(es: seq<Event>) { forall i :: 0 <= i < |es| ==> !es[i].Begin? }

  /** This connect(), with what happens until the next, has its task released with 0 although no onConnect ran for it. */
  ghost predicate Misleads(s: State, es: seq<Event>) {
    && LegalRun(s, [CONNECT] + es) && NoBegin(es)
    && var log := Run(s, [CONNECT] + es).log;
       exists i: nat :: |s.log| <= i < |log| && log[i] == Release(0) && !AfterConnect(log, i)
  }

  /** No connect() is going on, and one would pass its checks. */
  predicate Ready(s: State) { s.alive && s.caller.Idle? && s.link.status == Disconnected }

  lemma {:induction false} NoBeginChecked(s: State, es: seq<Event>)
    requires LegalRun(s, es) && NoBegin(es)
    ensures CheckedRun(s, es)
    decreases |es|
  {
    if es != [] {
      assert forall i :: 0 <= i < |es| - 1 ==> es[1..][i] == es[i + 1];
      NoBeginChecked(Step(s, es[0]), es[1..]);
    }
  }

  lemma NotMisled(s: State, es: seq<Event>)
    requires Good(s) && s.link.handle.None?
    ensures !Misleads(s, es)
  {
    var run := [CONNECT] + es;
    if LegalRun(s, run) && NoBegin(es) {
      assert run[1..] == es;
      var s1, from := Step(s, CONNECT), |s.log|;
      NothingYet(s.log, from);
      GoodStep(s, CONNECT);
      CleanBegin(s, CONNECT, from);
      NoBeginChecked(s1, es);
      CleanRun(s1, es, from);
      var log := Run(s1, es).log;
      forall i: nat | from <= i < |log| && log[i] == Release(0) ensures AfterConnect(log, i) { FairMeans(log, from, i); }
    }
  }

  /** One step of a run. */
  predicate Leads(s: State, e: Event, t: State) { Legal(s, e) && Step(s, e) == t }

  lemma LeadsOn(s: State, e: Event, t: State, es: seq<Event>)
    requires Leads(s, e, t) && LegalRun(t, es)
    ensures LegalRun(s, [e] + es) && Run(s, [e] + es) == Run(t, es)
  {
    assert ([e] + es)[1..] == es;
  }

  /** Whatever the client has been through, an event of the connection it still has a handle of releases the task. */
  lemma OldHandleReleases(s: State)
    requires Ready(s) && s.link.handle.Some?
    ensures var es := [CONNECT, Block, GapReporting(s.link.handle.value, 0)];
            LegalRun(s, es) && Run(s, es).log == s.log + [Begun, Attempt, Release(0)]
  {
    var e := GapReporting(s.link.handle.value, 0);
    var s1 := BegunState(s, false).(caller := Starting);
    var s2 := s1.(caller := Waiting(None), task := true);
    var s3 := Note(s2.(caller := Waiting(Some(0))), Release(0));
    assert Leads(s, CONNECT, s1) && Leads(s1, Block, s2) && Leads(s2, e, s3);
    LeadsOn(s2, e, s3, []);
    LeadsOn(s1, Block, s2, [e]);
    LeadsOn(s, CONNECT, s1, [Block, e]);
    assert [CONNECT] + [Block, e] == [CONNECT, Block, e] && [Block] + [e] == [Block, e] && [e] + [] == [e];
  }

  lemma Misled(s: State)
    requires Ready(s) && s.link.handle.Some?
    ensures Misleads(s, [Block, GapReporting(s.link.handle.value, 0)])
  {
    OldHandleReleases(s);
    var es := [Block, GapReporting(s.link.handle.value, 0)];
    assert [CONNECT] + es == [CONNECT, Block, GapReporting(s.link.handle.value, 0)];
    var log, n := s.log + [Begun, Attempt, Release(0)], |s.log|;
    assert log[n] == Begun && log[n + 1] == Attempt && log[n + 2] == Release(0);
    assert !AfterConnect(log, n + 2);
  }

  /** In whatever state a connect() may begin, it can be released too soon if and only if a handle is still held. */
  lemma MisledExactly(s: State)
    requires Good(s) && Ready(s)
    ensures (exists es :: Misleads(s, es)) <==> s.link.handle.Some?
  {
    if s.link.handle.Some? {
      Misled(s);
    } else {
      forall es ensures !Misleads(s, es) { NotMisled(s, es); }
    }
  }

  // ---- how a handle is left behind ------------------------------------------------------------------

  /** connect() fails in this step, at once or after its wait. */
  predicate Fails(s: State, e: Event)
    requires Legal(s, e)
  {
    || (e.Begin? && (!e.synced || s.link.status != Disconnected || e.nullAddress || e.attemptRc != 0))
    || (e.Wake? && s.caller.flag.value != 0)
    || (e.Expire? && s.link.status != Connected)
  }

  /** A client that is not connected, or only tries to be, holds no handle. */
  predicate Tidy(s: State) {
    s.link.status == Disconnected || s.link.status == Connecting ==> s.link.handle.None?
  }

  /** The one way out of this: a connect() that fails while a handle is held. */
  lemma TidyExactly(s: State, e: Event)
    requires Tidy(s) && Legal(s, e)
    ensures Tidy(Step(s, e)) <==> !(Fails(s, e) && s.link.handle.Some?)
  {
    match e
    case GapDisconnect(reason, retryRc) => TidyAfterDrop(DropLink(s), reason, retryRc);
    case Begin(_, _, _, _) => TidyBegin(s, e);
    case _ =>
  }

  lemma TidyBegin(s: State, e: Event)
    requires Tidy(s) && Legal(s, e) && e.Begin?
    ensures OnBegin(s, e).link.handle == s.link.handle
    ensures OnBegin(s, e).link.status == if Fails(s, e) then Disconnected else Connecting
    ensures !Fails(s, e) ==> s.link.handle.None?
  {}

  lemma TidyAfterDrop(s: State, reason: NonZero, retryRc: int)
    ensures AfterDrop(s, reason, retryRc).link.handle.None?
  {}

  /** In particular one that is refused because the client is connected: it marks the client disconnected. */
  lemma RefusedConnect(s: State, e: Event)
    requires Good(s) && Legal(s, e) && e.Begin? && s.link.status == Connected
    ensures Step(s, e).link == s.link.(status := Disconnected) && s.link.handle.Some?
    ensures Step(s, e).alive <==> !s.config.deleteOnFail
    ensures Step(s, e).caller.Idle?
  {}

  /** The next connect() can then be released too soon, unless the client was deleted with the failure. */
  lemma RefusedConnectMisleads(s: State, e: Event)
    requires Good(s) && Legal(s, e) && e.Begin? && s.link.status == Connected
    ensures (exists es :: Misleads(Step(s, e), es)) <==> !s.config.deleteOnFail
  {
    RefusedConnect(s, e);
    GoodStep(s, e);
    var t := Step(s, e);
    if t.alive {
      MisledExactly(t);
    } else {
      forall es ensures !Misleads(t, es) { assert ([CONNECT] + es)[0] == CONNECT; }
    }
  }

  /** Any client gets there. */
  lemma ConnectedReached(config: Config, handle: nat)
    ensures var es := [Begin(true, false, true, 0), GapConnect(0, handle)];
            && LegalRun(Fresh(config), es)
            && var s := Run(Fresh(config), es);
               s.alive && s.caller.Idle? && s.link == Link(Connected, Some(handle), true, true)
  {
    var e1, e2 := Begin(true, false, true, 0), GapConnect(0, handle);
    var s1 := Step(Fresh(config), e1);
    LeadsOn(s1, e2, Step(s1, e2), []);
    LeadsOn(Fresh(config), e1, s1, [e2]);
    assert [e1] + [e2] == [e1, e2] && [e2] + [] == [e2];
  }

  // ---- what connect() returns when its wait times out ----------------------------------------------

  /** For a task inside connect(), handle held or not when it began: a link that is up and not pending has had its onConnect. */
  predicate Told(s: State) {
    !s.caller.Idle? && s.link.status == Connected && !s.link.pending ==> Read(s.log).ran
  }

  lemma ToldComplete(s: State)
    requires Told(s)
    ensures Told(Complete(s))
  {
    if s.link.pending {
      var s0 := s.(link := s.link.(pending := false, armed := false), task := false);
      Notes(s0, OnConnect);
      Notes(Note(s0, OnConnect).(caller := Waiting(Some(0))), Release(0));
    }
  }

  lemma ToldReleased(s: State, rc: int)
    requires Good(s) && Told(s)
    ensures Told(Released(s, rc))
  {
    if s.task { Notes(s.(caller := Waiting(Some(rc))), Release(rc)); }
  }

  lemma ToldConnect(s: State, status: int, handle: nat)
    requires Told(s)
    ensures Told(OnGapConnect(s, status, handle))
  {
    Notes(s, Turned(handle));
  }

  /** After a DISCONNECT the link is down or tried again. */
  lemma DropEnds(s: State, reason: NonZero, retryRc: int)
    ensures OnGapDisconnect(s, reason, retryRc).link.status != Connected
  {}

  lemma ToldTimer(s: State, due: bool)
    requires Told(s)
    ensures Told(OnTimer(s, due))
  {
    ToldComplete(s);
    var s1 := s.(link := s.link.(armed := false));
    assert s.link.pending ==> Complete(s1) == Complete(s);
  }

  lemma ToldStep(s: State, e: Event)
    requires Good(s) && Told(s) && Legal(s, e)
    ensures Told(Step(s, e))
  {
    match e
    case GapConnect(status, handle) => ToldConnect(s, status, handle);
    case GapDisconnect(reason, retryRc) => DropEnds(s, reason, retryRc);
    case GapQuiet(_) => ToldComplete(s);
    case GapReporting(_, rc) => ToldComplete(s); ToldReleased(s, rc);
    case Timer(due) => ToldTimer(s, due);
    case _ =>
  }

  lemma {:induction false} ToldRun(s: State, es: seq<Event>)
    requires Good(s) && Told(s) && LegalRun(s, es)
    ensures Told(Run(s, es))
    decreases |es|
  {
    if es != [] {
      GoodStep(s, es[0]);
      ToldStep(s, es[0]);
      ToldRun(Step(s, es[0]), es[1..]);
    }
  }

  /**
   * After any run, a wait that times out still makes connect() return true if the link is
   * up; onConnect has then run unless its callback is pending, and then the accepted
   * CONNECT still lacks it.
   */
  lemma ExpireReturns(config: Config, es: seq<Event>, s: State)
    requires LegalRun(Fresh(config), es) && s == Run(Fresh(config), es) && Legal(s, Expire)
    ensures Step(s, Expire).log[|Step(s, Expire).log| - 1] == Returned(s.link.status == Connected)
    ensures s.link.status == Connected && !s.link.pending ==> AfterConnect(s.log, |s.log|)
    ensures s.link.pending ==> Answers(s.log, |s.log|)
  {
    GoodRun(Fresh(config), es);
    ToldRun(Fresh(config), es);
    RanMeans(s.log);
    OpenMeans(s.log);
  }

  const PLAIN := Config(false, 2, false, false)

  /** It can return true with the callback still pending. */
  lemma ExpireBeforeConnect()
    ensures var es := [Begin(true, false, false, 0), Block, GapConnect(0, 1), Expire];
            LegalRun(Fresh(PLAIN), es)
            && Run(Fresh(PLAIN), es).log == [Begun, Attempt, Accepted(1), Returned(true)]
  {
    var es := [Begin(true, false, false, 0), Block, GapConnect(0, 1), Expire];
    var s1 := Step(Fresh(PLAIN), es[0]);
    var s2 := Step(s1, es[1]);
    var s3 := Step(s2, es[2]);
    var s4 := Step(s3, es[3]);
    assert es[1..][1..] == es[2..] && es[2..][1..] == es[3..] && es[3..][1..] == [];
    assert LegalRun(s4, []) && Run(s4, []) == s4;
    assert LegalRun(s3, es[3..]) && Run(s3, es[3..]) == s4;
    assert LegalRun(s2, es[2..]) && Run(s2, es[2..]) == s4;
    assert LegalRun(s1, es[1..]) && Run(s1, es[1..]) == s4;
  }
}
