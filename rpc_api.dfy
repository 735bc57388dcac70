/** The client of the local presence service (src/hooks/useRpcApi.ts): the
    request body of the update call, how the outcome of the update is
    classified, how the health check collapses to a boolean, and which
    notification the update mutation raises. The network itself is not
    modelled: what `fetch` did is the value `FetchResult`. */
module RpcApi {
  import opened Wrappers
  import opened Toasts
  import opened RpcTypes

  // -------------------------------------------------------------- wire body

  datatype WireButton = WireButton(Label: string, Url: string)

  /** The JSON body of `POST /rpc/update`, with the service's capitalised
      property names. An absent `StartTimestamp` is left out of the JSON. */
  datatype WireConfig = WireConfig(
    Details: string,
    State: string,
    LargeImageKey: string,
    LargeImageText: string,
    SmallImageKey: string,
    SmallImageText: string,
    ShowElapsedTime: bool,
    ButtonsEnabled: bool,
    Buttons: seq<WireButton>,
    StartTimestamp: Option<int>)

  /** The object literal passed to `JSON.stringify` in `updatePresence`. */
  function ToWire(c: RpcConfig): (w: WireConfig)
    ensures w.Details == c.details && w.State == c.state
    ensures w.LargeImageKey == c.largeImageKey && w.LargeImageText == c.largeImageText
    ensures w.SmallImageKey == c.smallImageKey && w.SmallImageText == c.smallImageText
    ensures w.ShowElapsedTime == c.showElapsedTime && w.ButtonsEnabled == c.buttonsEnabled
    ensures |w.Buttons| == |c.buttons|
    ensures forall i :: 0 <= i < |c.buttons| ==>
              w.Buttons[i].Label == c.buttons[i].caption && w.Buttons[i].Url == c.buttons[i].url
    ensures w.StartTimestamp == c.startTimestamp
  {
    WireConfig(
      c.details,
      c.state,
      c.largeImageKey,
      c.largeImageText,
      c.smallImageKey,
      c.smallImageText,
      c.showElapsedTime,
      c.buttonsEnabled,
      seq(|c.buttons|, i requires 0 <= i < |c.buttons| => WireButton(c.buttons[i].caption, c.buttons[i].url)),
      c.startTimestamp)
  }

  /** The reading of a wire body back into a config, property by property. */
  function FromWire(w: WireConfig): RpcConfig
  {
    RpcConfig(
      w.Details,
      w.State,
      w.LargeImageKey,
      w.LargeImageText,
      w.SmallImageKey,
      w.SmallImageText,
      w.ShowElapsedTime,
      w.ButtonsEnabled,
      seq(|w.Buttons|, i requires 0 <= i < |w.Buttons| => RpcButton(w.Buttons[i].Label, w.Buttons[i].Url)),
      w.StartTimestamp)
  }

  /** The mapping loses nothing: the config can be read back from the body. */
  lemma WireRoundTrip(c: RpcConfig)
    ensures FromWire(ToWire(c)) == c
  {
    var back := FromWire(ToWire(c));
    assert back.buttons == c.buttons;
  }

  /** And it is onto: every body is the body of some config. */
  lemma WireRoundTripBack(w: WireConfig)
    ensures ToWire(FromWire(w)) == w
  {
    var back := ToWire(FromWire(w));
    assert back.Buttons == w.Buttons;
  }

  // ----------------------------------------------------- outcome of a fetch

  /** What a `fetch` call did: it threw (network failure, refused
      connection, timeout), or a response arrived with an `ok` status and a
      body that either decodes as an acknowledgement (Some) or not (None). */
  datatype FetchResult = Threw | Resp(ok: bool, body: Option<ApiResponse>)

  /** What the `try` block of `updatePresence` threw. */
  datatype Thrown = FetchFailed | StatusNotOk(message: string) | BodyUnreadable

  const StatusErrorMessage: string := "Failed to update presence"
  const ConnectionFailedMessage: string :=
    "Connection failed. Is the .NET application running on localhost:5000?"

  /** The `try` block of `updatePresence`: the acknowledgement, or what it
      threw. */
  function AttemptUpdate(f: FetchResult): (r: Result<ApiResponse, Thrown>)
    ensures f.Threw? ==> r == Failure(FetchFailed)
    ensures f.Resp? && !f.ok ==> r == Failure(StatusNotOk(StatusErrorMessage))
    ensures f.Resp? && f.ok && f.body.None? ==> r == Failure(BodyUnreadable)
    ensures r.Success? <==> f.Resp? && f.ok && f.body.Some?
    ensures r.Success? ==> r.value == f.body.value
  {
    match f
    case Threw => Failure(FetchFailed)
    case Resp(ok, body) =>
      if !ok then Failure(StatusNotOk(StatusErrorMessage))
      else if body.None? then Failure(BodyUnreadable)
      else Success(body.value)
  }

  /** `updatePresence`: the `catch` replaces every failure of the attempt by
      one connection-failed error. Success means a response arrived, was
      ok, and its body decoded; the acknowledgement's own `success` flag is
      not consulted. */
  function UpdatePresence(f: FetchResult): (r: Result<ApiResponse, string>)
    ensures r.Success? <==> f.Resp? && f.ok && f.body.Some?
    ensures r.Success? ==> r.value == f.body.value
    ensures r.Failure? ==> r.error == ConnectionFailedMessage
  {
    match AttemptUpdate(f)
    case Success(ack) => Success(ack)
    case Failure(_) => Failure(ConnectionFailedMessage)
  }

  /** Whatever the attempt threw, the caller sees the connection-failed
      error; in particular the non-ok status message never escapes. */
  lemma InnerErrorNeverEscapes(f: FetchResult)
    ensures AttemptUpdate(f).Failure? ==> UpdatePresence(f) == Failure(ConnectionFailedMessage)
    ensures UpdatePresence(f) != Failure(StatusErrorMessage)
  {
    assert |StatusErrorMessage| == 25 && |ConnectionFailedMessage| == 69;
  }

  /** `checkConnection`: true exactly when a response arrived with an ok
      status; a throw or a timeout is false, and nothing escapes. */
  function CheckConnection(f: FetchResult): (r: bool)
    ensures r <==> f.Resp? && f.ok
  {
    match f
    case Threw => false
    case Resp(ok, _) => ok
  }

  // ------------------------------------------------------------ mutation

  /** The toast the update mutation raises: `onSuccess` or `onError`. */
  function MutationToast(r: Result<ApiResponse, string>): (t: Toast)
    ensures r.Success? ==> t.title == "Presence Updated" && !t.destructive
    ensures r.Failure? ==> t.title == "Connection Error" && t.description == r.error && t.destructive
  {
    match r
    case Success(_) => Toast("Presence Updated", "Your Discord Rich Presence has been updated successfully.", false)
    case Failure(message) => Toast("Connection Error", message, true)
  }

  /** An update that fails for any reason raises the same error toast. */
  lemma FailedUpdateToast(f: FetchResult, g: FetchResult)
    requires UpdatePresence(f).Failure? && UpdatePresence(g).Failure?
    ensures MutationToast(UpdatePresence(f)) == MutationToast(UpdatePresence(g))
    ensures MutationToast(UpdatePresence(f)).description == ConnectionFailedMessage
  {
  }
}
