/**
 * NimBLEClient.cpp: the connection state machine as a function on states.  The
 * application task that calls `connect()` and the host task that handles GAP events
 * take turns; what the stack answers is part of each event.
 */
module ClientSpec {
  import opened Base

  datatype Status = Connected | Disconnected | Connecting | Disconnecting

  /** `handle` is None for BLE_HS_CONN_HANDLE_NONE; `armed` is the connection-established timer. */
  datatype Link = Link(status: Status, handle: Option<nat>, pending: bool, armed: bool)

  type Retries = x: int | 0 <= x <= 7

  datatype Config = Config(isAsync: bool, retries: Retries, deleteOnDisconnect: bool, deleteOnFail: bool)

  /** Where the application task is in a call of `connect()`. */
  datatype Caller = Idle | Starting | Waiting(flag: Option<int>)

  /** What can be seen from outside. */
  datatype Act =
    | Begun                    // connect() passed its checks
    | Attempt                  // a call of startConnectionAttempt
    | Accepted(handle: nat)    // a successful CONNECT event that was waited for
    | Turned(handle: nat)      // a CONNECT event that was not, and is terminated
    | Dropped                  // a DISCONNECT event
    | OnConnect
    | OnConnectFail(rc: int)
    | OnDisconnect(rc: int)
    | Release(rc: int)         // the waiting task is released with a result
    | Returned(ok: bool)       // connect() returns
    | Deleted                  // the client deletes itself

  /** `task` is whether `m_pTaskData` points at the waiting task. */
  datatype State = State(link: Link, config: Config, retryCount: nat, caller: Caller, task: bool, alive: bool, log: seq<Act>)

  type NonZero = x: int | x != 0 witness 1

  datatype Event =
    | Begin(synced: bool, nullAddress: bool, isAsync: bool, attemptRc: int)
    | Block                                            // m_pTaskData is set, the task waits
    | Wake                                             // it was released
    | Expire                                           // the wait timed out
    | GapConnect(status: int, handle: nat)
    | GapDisconnect(reason: NonZero, retryRc: int)
    | GapQuiet(handle: nat)                            // notifications, parameter updates, PHY, passkeys
    | GapReporting(handle: nat, rc: int)               // encryption, identity, MTU
    | Timer(due: bool)                                // or one queued before the timer was stopped
    | Disconnect(accepted: bool)                       // the application's disconnect()
    | SetConfig(config: Config)

  const ETIMEOUT := 13
  const ESTABLISHMENT_FAILED: NonZero := 0x23e
  const UNSUPPORTED_REMOTE_FEATURE := 0x1a

  function Note(s: State, a: Act): State { s.(log := s.log + [a]) }

  /** Lines 1392-1394: releases whoever the copy of `m_pTaskData` points at. */
  function Released(s: State, rc: int): State {
    if s.task then Note(s.(caller := Waiting(Some(rc))), Release(rc)) else s
  }

  /** `completeConnectEstablished` */
  function Complete(s: State): State {
    if !s.link.pending then s
    else
      var s1 := Note(s.(link := s.link.(pending := false, armed := false), task := false), OnConnect);
      if s.task then Note(s1.(caller := Waiting(Some(0))), Release(0)) else s1
  }

  function Delete(s: State): State { Note(s.(alive := false), Deleted) }

  /** The error exit of `connect()`. */
  function Failed(s: State): State {
    var s1 := s.(link := s.link.(status := Disconnected), caller := Idle, task := false);
    Note(if s.config.deleteOnFail then Delete(s1) else s1, Returned(false))
  }

  function OnBegin(s: State, e: Event): State
    requires e.Begin?
  {
    if !e.synced || s.link.status != Disconnected || e.nullAddress then Failed(s)
    else
      var s1 := Note(Note(s.(link := s.link.(status := Connecting, pending := false),
                             config := s.config.(isAsync := e.isAsync), retryCount := 0), Begun), Attempt);
      if e.attemptRc != 0 then Failed(s1)
      else if e.isAsync then Note(s1, Returned(true))
      else s1.(caller := Starting)
  }

  /** `connect()` once its wait is over with this result. */
  function Finish(s: State, rc: int): State {
    if rc != 0 then Failed(s) else Note(s.(caller := Idle, task := false), Returned(true))
  }

  function OnExpire(s: State): State {
    Finish(s, if s.link.status != Connected then ETIMEOUT else 0)
  }

  function OnGapConnect(s: State, status: int, handle: nat): State {
    if s.link.status != Connecting then Note(s, Turned(handle))
    else if status == 0 || status == UNSUPPORTED_REMOTE_FEATURE then
      Note(s.(link := Link(Connected, Some(handle), true, true)), Accepted(handle))
    else Released(Refuse(s, status), status)
  }

  function Refuse(s: State, status: int): State {
    var s1 := s.(link := Link(Disconnected, None, false, false));
    if !s.config.isAsync then s1
    else if !s.config.deleteOnFail then Note(s1, OnConnectFail(status))
    else Delete(Note(s1, OnConnectFail(status)))
  }

  function DropLink(s: State): State {
    Note(s.(link := s.link.(pending := false, armed := false)), Dropped)
  }

  function Retrying(s: State): State {
    Note(s.(link := s.link.(handle := None, status := Connecting), retryCount := s.retryCount + 1), Attempt)
  }

  function OnGapDisconnect(s: State, reason: NonZero, retryRc: int): State {
    AfterDrop(DropLink(s), reason, retryRc)
  }

  /** A failure to be established is tried again, as long as retries are left and one can be started. */
  function AfterDrop(s: State, reason: NonZero, retryRc: int): State {
    if reason == ESTABLISHMENT_FAILED && s.retryCount < s.config.retries then
      if retryRc == 0 then Retrying(s) else Lost(Retrying(s), reason)
    else Lost(s, reason)
  }

  /** No retry, or none that could be started. */
  function Lost(s: State, reason: NonZero): State {
    var early := reason == ESTABLISHMENT_FAILED;
    var s1 := Note(s, if early then OnConnectFail(reason) else OnDisconnect(reason));
    var s2 := s1.(link := s1.link.(handle := None, status := Disconnected));
    var wanted := s.config.deleteOnDisconnect || (early && s.config.deleteOnFail);
    if wanted && s.task && early then Released(s2.(config := s2.config.(deleteOnFail := true)), reason)
    else Released(if wanted then Delete(s2) else s2, reason)
  }

  function OnGapReporting(s: State, handle: nat, rc: int): State {
    if s.link.handle != Some(handle) then s
    else if s.link.pending then Complete(s)
    else Released(s, rc)
  }

  function OnTimer(s: State, due: bool): State {
    var s1 := if due then s.(link := s.link.(armed := false)) else s;
    if s.link.status != Connected then s1 else Complete(s1)
  }

  /** One application task, which is in one place at a time; a deleted client hears no more. */
  predicate Legal(s: State, e: Event) {
    && s.alive
    && (e.Begin? ==> s.caller.Idle?)
    && (e.Block? ==> s.caller.Starting?)
    && (e.Wake? ==> s.caller.Waiting? && s.caller.flag.Some?)
    && (e.Expire? ==> s.caller.Waiting? && s.caller.flag.None?)
    && (e.Timer? && e.due ==> s.link.armed)
  }

  function Step(s: State, e: Event): State
    requires Legal(s, e)
  {
    match e
    case Begin(_, _, _, _) => OnBegin(s, e)
    case Block => s.(caller := Waiting(None), task := true)
    case Wake => Finish(s, s.caller.flag.value)
    case Expire => OnExpire(s)
    case GapConnect(status, handle) => OnGapConnect(s, status, handle)
    case GapDisconnect(reason, retryRc) => OnGapDisconnect(s, reason, retryRc)
    case GapQuiet(handle) => if s.link.handle == Some(handle) then Complete(s) else s
    case GapReporting(handle, rc) => OnGapReporting(s, handle, rc)
    case Timer(due) => OnTimer(s, due)
    case Disconnect(accepted) => if accepted then s.(link := s.link.(status := Disconnecting)) else s
    case SetConfig(config) => s.(config := config)
  }

  function Fresh(config: Config): State {
    State(Link(Disconnected, None, false, false), config, 0, Idle, false, true, [])
  }

  predicate LegalRun(s: State, es: seq<Event>)
    decreases |es|
  {
    es == [] || (Legal(s, es[0]) && LegalRun(Step(s, es[0]), es[1..]))
  }

  function Run(s: State, es: seq<Event>): State
    requires LegalRun(s, es)
    decreases |es|
  {
    if es == [] then s else Run(Step(s, es[0]), es[1..])
  }
}
