/** The connection indicator (src/components/ConnectionStatus.tsx): from the
    health query's `isLoading` flag and its cached `data` (the last result of
    the health check, None while there is none) to one of three labels and
    to the style classes that apply. */
module ConnectionStatus {
  import opened Wrappers

  datatype Indicator = Connecting | Connected | Disconnected

  /** Whether the cached result is truthy. */
  predicate IsConnected(data: Option<bool>) {
    data == Some(true)
  }

  /** The nested conditional that picks what the indicator shows. */
  function Classify(isLoading: bool, data: Option<bool>): (r: Indicator)
    ensures r == Connecting <==> isLoading
    ensures r == Connected <==> !isLoading && IsConnected(data)
    ensures r == Disconnected <==> !isLoading && !IsConnected(data)
  {
    if isLoading then Connecting
    else if IsConnected(data) then Connected
    else Disconnected
  }

  /** The text of the indicator; each state has its own. */
  function Label(i: Indicator): (r: string)
    ensures r == "Connecting..." <==> i == Connecting
    ensures r == ".NET Connected" <==> i == Connected
    ensures r == "Disconnected" <==> i == Disconnected
  {
    match i
    case Connecting => "Connecting..."
    case Connected => ".NET Connected"
    case Disconnected => "Disconnected"
  }

  /** The three labels differ, so the text names the state unambiguously. */
  lemma LabelInjective(i: Indicator, j: Indicator)
    requires Label(i) == Label(j)
    ensures i == j
  {
    assert "Connecting..."[0] == 'C' && ".NET Connected"[0] == '.' && "Disconnected"[0] == 'D';
  }

  /** The three class groups `cn` adds: muted while loading, green when
      connected, destructive when neither. They are independent conditions,
      not a choice of one. */
  datatype Style = Style(muted: bool, green: bool, destructive: bool)

  function StyleOf(isLoading: bool, data: Option<bool>): (s: Style)
    ensures s.muted <==> isLoading
    ensures s.green <==> IsConnected(data)
    ensures s.destructive <==> !isLoading && !IsConnected(data)
  {
    Style(isLoading, IsConnected(data), !IsConnected(data) && !isLoading)
  }

  /** The destructive style goes with the "Disconnected" label and with no
      other. */
  lemma DestructiveIffDisconnected(isLoading: bool, data: Option<bool>)
    ensures StyleOf(isLoading, data).destructive <==> Classify(isLoading, data) == Disconnected
  {
  }

  /** The conditional tests the loading flag first: while it is set the
      label is "Connecting..." whatever `data` holds, and the green class
      depends on `data` alone. (The query reports loading only before its
      first result, so on the page `data` is None at that point.) */
  lemma LoadingTakesPrecedence(data: Option<bool>)
    ensures Label(Classify(true, data)) == "Connecting..."
    ensures StyleOf(true, data).muted && !StyleOf(true, data).destructive
    ensures StyleOf(true, data).green <==> IsConnected(data)
  {
  }
}
