/** NimBLEClient.cpp: the connection state as the object keeps it, event by event. */
module Client {
  import opened Base
  import opened ClientSpec

  class NimBLEClient {
    var connStatus: Status
    var connHandle: Option<nat>
    var connectCallbackPending: bool
    var timerArmed: bool
    var config: Config
    var connectFailRetryCount: nat
    var pTaskData: bool        // set or null
    var caller: Caller         // the application task, and m_flags of its task data
    var alive: bool
    ghost var log: seq<Act>

    ghost function View(): State
      reads this
    {
      State(Link(connStatus, connHandle, connectCallbackPending, timerArmed), config, connectFailRetryCount,
            caller, pTaskData, alive, log)
    }

    constructor (config: Config)
      ensures View() == Fresh(config)
    {
      connStatus, connHandle, connectCallbackPending, timerArmed := Disconnected, None, false, false;
      this.config, connectFailRetryCount := config, 0;
      pTaskData, caller, alive, log := false, Idle, true, [];
    }

    method Emit(a: Act)
      modifies `log
      ensures log == old(log) + [a]
    {
      log := log + [a];
    }

    /** `NimBLEUtils::taskRelease` on a copy of `m_pTaskData`. */
    method TaskRelease(rc: int)
      modifies `caller, `log
      ensures caller == Waiting(Some(rc)) && log == old(log) + [Release(rc)]
    {
      caller := Waiting(Some(rc));
      Emit(Release(rc));
    }

    method SetConnectRetries(numRetries: nat)
      modifies `config
      ensures config == old(config).(retries := Min(numRetries, 7))
    {
      config := config.(retries := Min(numRetries, 7));
    }

    /** Whether the callback was still pending. */
    method CompleteConnectEstablished() returns (ran: bool)
      modifies this
      ensures View() == Complete(old(View())) && ran == old(connectCallbackPending)
    {
      if !connectCallbackPending { return false; }
      connectCallbackPending := false;
      timerArmed := false;
      var task := pTaskData;
      pTaskData := false;
      Emit(OnConnect);
      if task { TaskRelease(0); }
      ran := true;
    }

    method ConnectEstablishedTimerCb(due: bool)
      requires due ==> timerArmed
      modifies this
      ensures View() == OnTimer(old(View()), due)
    {
      if due { timerArmed := false; }
      if connStatus != Connected { return; }
      var _ := CompleteConnectEstablished();
    }

    // ---- connect() ------------------------------------------------------------------------

    method DeleteClient()
      modifies `alive, `log
      ensures !alive && log == old(log) + [Deleted]
    {
      alive := false;
      Emit(Deleted);
    }

    /** The error exit. */
    method Fail()
      modifies this
      ensures View() == Failed(old(View()))
    {
      connStatus := Disconnected;
      caller, pTaskData := Idle, false;
      if config.deleteOnFail { DeleteClient(); }
      Emit(Returned(false));
    }

    /** connect() up to the wait; `attemptRc` is what startConnectionAttempt returns. */
    method Connect(synced: bool, nullAddress: bool, isAsync: bool, attemptRc: int)
      requires caller.Idle?
      modifies this
      ensures View() == OnBegin(old(View()), Begin(synced, nullAddress, isAsync, attemptRc))
    {
      if !synced || connStatus != Disconnected || nullAddress {
        Fail();
        return;
      }
      connStatus := Connecting;
      config := config.(isAsync := isAsync);
      connectCallbackPending := false;
      connectFailRetryCount := 0;
      Emit(Begun);
      Emit(Attempt);
      if attemptRc != 0 {
        Fail();
        return;
      }
      if config.isAsync {
        Emit(Returned(true));
        return;
      }
      caller := Starting;
    }

    method Wait()
      requires caller.Starting?
      modifies this
      ensures View() == old(View()).(caller := Waiting(None), task := true)
    {
      pTaskData, caller := true, Waiting(None);
    }

    /** connect() after the wait, with whether it ended in time. */
    method Resume(inTime: bool)
      requires caller.Waiting? && inTime == caller.flag.Some?
      modifies this
      ensures View() == if inTime then Finish(old(View()), old(caller).flag.value) else OnExpire(old(View()))
    {
      var flags := if caller.flag.Some? then caller.flag.value else 0;
      if !inTime {
        if connStatus != Connected { flags := ETIMEOUT; }
      }
      pTaskData := false;
      if flags != 0 {
        Fail();
        return;
      }
      caller := Idle;
      Emit(Returned(true));
    }

    method DisconnectPeer(accepted: bool)
      modifies `connStatus
      ensures connStatus == if accepted then Disconnecting else old(connStatus)
    {
      if accepted { connStatus := Disconnecting; }
    }

    // ---- GAP events ---------------------------------------------------------------------------

    method OnConnectEvent(status: int, handle: nat)
      modifies this
      ensures View() == OnGapConnect(old(View()), status, handle)
    {
      var task := pTaskData;
      if connStatus != Connecting {
        Emit(Turned(handle));
        return;
      }
      var rc := status;
      if rc == UNSUPPORTED_REMOTE_FEATURE { rc := 0; }
      if rc == 0 {
        connStatus, connHandle, connectCallbackPending := Connected, Some(handle), true;
        timerArmed := true;
        Emit(Accepted(handle));
        return;
      }
      connStatus, connHandle, connectCallbackPending := Disconnected, None, false;
      timerArmed := false;
      if config.isAsync {
        Emit(OnConnectFail(rc));
        if config.deleteOnFail { DeleteClient(); }
      }
      if task { TaskRelease(rc); }
    }

    method OnDisconnectEvent(reason: NonZero, retryRc: int)
      modifies this
      ensures View() == OnGapDisconnect(old(View()), reason, retryRc)
    {
      connectCallbackPending := false;
      timerArmed := false;
      Emit(Dropped);
      if reason == ESTABLISHMENT_FAILED && connectFailRetryCount < config.retries {
        connHandle := None;
        connectFailRetryCount := connectFailRetryCount + 1;
        connStatus := Connecting;
        Emit(Attempt);
        if retryRc == 0 { return; }
      }
      LinkLost(reason);
    }

    /** Lines 1084-1107, and the release behind the switch. */
    method LinkLost(reason: NonZero)
      modifies this
      ensures View() == Lost(old(View()), reason)
    {
      var task := pTaskData;
      var early := reason == ESTABLISHMENT_FAILED;
      if early { Emit(OnConnectFail(reason)); } else { Emit(OnDisconnect(reason)); }
      connHandle := None;
      connStatus := Disconnected;
      if config.deleteOnDisconnect || (early && config.deleteOnFail) {
        if task && early {
          config := config.(deleteOnFail := true);
        } else {
          DeleteClient();
        }
      }
      if task { TaskRelease(reason); }
    }

    /** Events that return from the switch. */
    method OnQuietEvent(handle: nat)
      modifies this
      ensures View() == if old(connHandle) == Some(handle) then Complete(old(View())) else old(View())
    {
      if connHandle != Some(handle) { return; }
      var _ := CompleteConnectEstablished();
    }

    /** Events that break out of it with a result. */
    method OnReportingEvent(handle: nat, rc: int)
      modifies this
      ensures View() == OnGapReporting(old(View()), handle, rc)
    {
      var task := pTaskData;
      if connHandle != Some(handle) { return; }
      var ran := CompleteConnectEstablished();
      if ran { task := false; }
      if task { TaskRelease(rc); }
    }

    /** Whatever comes next. */
    method Handle(e: Event)
      requires Legal(View(), e)
      modifies this
      ensures View() == Step(old(View()), e)
    {
      match e
      case Begin(synced, nullAddress, isAsync, attemptRc) => Connect(synced, nullAddress, isAsync, attemptRc);
      case Block => Wait();
      case Wake => Resume(true);
      case Expire => Resume(false);
      case GapConnect(status, handle) => OnConnectEvent(status, handle);
      case GapDisconnect(reason, retryRc) => OnDisconnectEvent(reason, retryRc);
      case GapQuiet(handle) => OnQuietEvent(handle);
      case GapReporting(handle, rc) => OnReportingEvent(handle, rc);
      case Timer(due) => ConnectEstablishedTimerCb(due);
      case Disconnect(accepted) => DisconnectPeer(accepted);
      case SetConfig(c) => config := c;
    }
  }
}
