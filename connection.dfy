/**
 * The `connection.update` handler (server.js:35-54): which of its three
 * independent reactions an update triggers. Rendering the QR code and the
 * console messages are presentation; restarting means calling `startBot()`
 * again, which opens a new socket on the same stored credentials.
 */
module Connection {
  import opened Wrappers

  /** The `connection` field of an update. */
  datatype ConnectionState = Connecting | Open | Close

  /** `lastDisconnect?.error?.output?.statusCode`, one optional level at a time. */
  datatype ErrorOutput = ErrorOutput(statusCode: Option<int>)
  datatype DisconnectError = DisconnectError(output: Option<ErrorOutput>)
  datatype LastDisconnect = LastDisconnect(error: Option<DisconnectError>)

  datatype ConnectionUpdate = ConnectionUpdate(
    qr: Option<string>,
    connection: Option<ConnectionState>,
    lastDisconnect: Option<LastDisconnect>)

  /** The status code of the messaging library's `DisconnectReason.loggedOut`. */
  const LoggedOut: int := 401

  /** Which branch of the close handling ran; it only chooses the console message. */
  datatype CloseNotice = SessionExpired | Reconnecting

  /**
   * `qrShown`: the pairing code drawn on the terminal; `restart`: `startBot()`
   * is called, with the branch that called it; `connectedShown`: the
   * connected banner is logged.
   */
  datatype Reaction = Reaction(qrShown: Option<string>, restart: Option<CloseNotice>, connectedShown: bool)

  function CloseStatus(u: ConnectionUpdate): Option<int> {
    match u.lastDisconnect
    case None => None
    case Some(ld) =>
      match ld.error
      case None => None
      case Some(err) =>
        match err.output
        case None => None
        case Some(out) => out.statusCode
  }

  /**
   * The three `if`s of the handler: a non-empty `qr` is shown, a close
   * restarts the bot (naming the logged-out case), an open is announced.
   */
  function OnConnectionUpdate(u: ConnectionUpdate): (r: Reaction)
    ensures r.qrShown.Some? <==> Truthy(u.qr)
    ensures r.qrShown.Some? ==> r.qrShown == u.qr
    ensures r.restart.Some? <==> u.connection == Some(Close)
    ensures r.restart == Some(SessionExpired) <==> u.connection == Some(Close) && CloseStatus(u) == Some(LoggedOut)
    ensures r.connectedShown <==> u.connection == Some(Open)
  {
    Reaction(
      if Truthy(u.qr) then u.qr else None,
      if u.connection == Some(Close) then
        Some(if CloseStatus(u) == Some(LoggedOut) then SessionExpired else Reconnecting)
      else None,
      u.connection == Some(Open))
  }

  /**
   * The disconnect reason only picks the console message: two updates that
   * differ in `lastDisconnect` alone show the same QR code, restart alike
   * and announce alike, so a logged-out close restarts like any other and
   * nothing (no credential is discarded) distinguishes them.
   */
  lemma RestartIgnoresReason(u: ConnectionUpdate, v: ConnectionUpdate)
    requires v == u.(lastDisconnect := v.lastDisconnect)
    ensures OnConnectionUpdate(u).restart.Some? == OnConnectionUpdate(v).restart.Some?
    ensures OnConnectionUpdate(u).qrShown == OnConnectionUpdate(v).qrShown
    ensures OnConnectionUpdate(u).connectedShown == OnConnectionUpdate(v).connectedShown
  {
  }
}
