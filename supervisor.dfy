/**
 The `connection.update` listener and the reconnect loop around
 `connectToWhatsApp`: which closes are recoverable, and the lifecycle of the
 bot process as a small state machine. The logged-out status code belongs to
 the protocol client and is kept as a parameter.
 */
module Supervisor {
  import opened Wrappers
  import E = Events

  /** The close was caused by a Boom error whose status code is the logged-out code. */
  predicate LoggedOut(lastDisconnect: Option<E.LastDisconnect>, loggedOutCode: int) {
    && lastDisconnect.Some?
    && lastDisconnect.value.error.Some?
    && lastDisconnect.value.error.value.Boom?
    && lastDisconnect.value.error.value.output.Some?
    && lastDisconnect.value.error.value.output.value.statusCode == Some(loggedOutCode)
  }

  /**
   `lastDisconnect?.error instanceof Boom ? lastDisconnect.error.output?.statusCode !== loggedOut : true`:
   reconnect after every close except a logged-out one.
   */
  function ShouldReconnect(lastDisconnect: Option<E.LastDisconnect>, loggedOutCode: int): (r: bool)
    ensures r <==> !LoggedOut(lastDisconnect, loggedOutCode)
  {
    match lastDisconnect
    case None => true
    case Some(d) =>
      match d.error
      case Some(Boom(output)) =>
        (match output
         case None => true
         case Some(o) => o.statusCode != Some(loggedOutCode))
      case _ => true
  }

  /** A close without an error, or with an error that is not a Boom error, is always followed by a reconnect. */
  lemma NonBoomCloseReconnects(lastDisconnect: Option<E.LastDisconnect>, loggedOutCode: int)
    requires lastDisconnect.None? || lastDisconnect.value.error.None? || lastDisconnect.value.error.value.OtherError?
    ensures ShouldReconnect(lastDisconnect, loggedOutCode)
  {
  }

  /** A Boom error whose status is missing or differs from the logged-out code is followed by a reconnect. */
  lemma OtherStatusReconnects(output: Option<E.BoomOutput>, loggedOutCode: int)
    requires output.None? || output.value.statusCode != Some(loggedOutCode)
    ensures ShouldReconnect(Some(E.LastDisconnect(Some(E.Boom(output)))), loggedOutCode)
  {
  }

  /** The phase of the bot process, as the last connection update reported it. */
  datatype Phase = Connecting | Open | Closed | Exited

  /**
   The process-level state `connectToWhatsApp` and its `connection.update`
   listener drive: the phase, the reconnect timers set and not yet fired,
   the reconnects ever scheduled, and the sockets created so far.
   */
  class Lifecycle {
    const loggedOutCode: int
    var phase: Phase
    var pending: nat
    var scheduled: nat
    var sessions: nat

    /** Exiting the process cancels every timer; every socket but the first comes from a fired timer. */
    ghost predicate Valid()
      reads this
    {
      && (phase == Exited ==> pending == 0)
      && 1 <= sessions
      && sessions - 1 + pending <= scheduled
    }

    /** The first `connectToWhatsApp()` call: one socket, connecting, nothing scheduled. */
    constructor (loggedOutCode: int)
      ensures Valid()
      ensures this.loggedOutCode == loggedOutCode
      ensures phase == Connecting && pending == 0 && scheduled == 0 && sessions == 1
    {
      this.loggedOutCode := loggedOutCode;
      phase := Connecting;
      pending, scheduled, sessions := 0, 0, 1;
    }

    /**
     One `connection.update` event. A close schedules exactly one reconnect
     when ShouldReconnect holds and otherwise exits the process; `open` and
     `connecting` only record the phase; an event without `connection` changes
     nothing. Once exited, nothing happens any more.
     */
    method OnConnectionUpdate(update: E.ConnectionUpdate)
      requires Valid()
      modifies this
      ensures Valid()
      ensures sessions == old(sessions)
      ensures old(phase) == Exited ==> phase == Exited && pending == 0 && scheduled == old(scheduled)
      ensures old(phase) != Exited && update.connection == Some(E.Close) ==>
        if ShouldReconnect(update.lastDisconnect, loggedOutCode) then
          phase == Closed && pending == old(pending) + 1 && scheduled == old(scheduled) + 1
        else
          phase == Exited && pending == 0 && scheduled == old(scheduled)
      ensures old(phase) != Exited && update.connection != Some(E.Close) ==>
        && pending == old(pending) && scheduled == old(scheduled)
        && phase == (if update.connection == Some(E.Open) then Open
                     else if update.connection == Some(E.Connecting) then Connecting
                     else old(phase))
    {
      if phase == Exited {
        return;
      }
      if update.connection == Some(E.Close) {
        if ShouldReconnect(update.lastDisconnect, loggedOutCode) {
          phase := Closed;
          pending := pending + 1;
          scheduled := scheduled + 1;
        } else {
          phase := Exited;
          pending := 0;
        }
      } else if update.connection == Some(E.Open) {
        phase := Open;
      } else if update.connection == Some(E.Connecting) {
        phase := Connecting;
      }
    }

    /**
     A reconnect timer fires and calls `connectToWhatsApp()` again: one more
     socket, connecting. Only a scheduled timer can fire, so this never
     happens after the process exited.
     */
    method FireReconnect()
      requires Valid() && pending > 0
      modifies this
      ensures Valid()
      ensures phase == Connecting && pending == old(pending) - 1
      ensures sessions == old(sessions) + 1 && scheduled == old(scheduled)
    {
      phase := Connecting;
      pending := pending - 1;
      sessions := sessions + 1;
    }
  }
}
