/** The presence payload and its companions (src/types/rpc.ts): a button, the
    config record the page edits, a saved preset, the service's
    acknowledgement, the default config and the closed list of image keys. */
module RpcTypes {
  import opened Wrappers

  /** `label` is a reserved word in Dafny, so the button's label is called
      `caption` throughout this model. */
  datatype RpcButton = RpcButton(caption: string, url: string)

  /** `startTimestamp` is optional (`startTimestamp?: number`): epoch
      milliseconds, None when the property is absent or undefined. */
  datatype RpcConfig = RpcConfig(
    details: string,
    state: string,
    largeImageKey: string,
    largeImageText: string,
    smallImageKey: string,
    smallImageText: string,
    showElapsedTime: bool,
    buttonsEnabled: bool,
    buttons: seq<RpcButton>,
    startTimestamp: Option<int>)

  datatype RpcPreset = RpcPreset(id: string, name: string, config: RpcConfig)

  datatype ApiResponse = ApiResponse(success: bool, message: string)

  datatype ImageKeyOption = ImageKeyOption(value: string, caption: string)

  /** `imageKeyOptions`: the identifiers the image pickers offer, with the
      text each option shows. */
  const ImageKeyOptions: seq<ImageKeyOption> := [
    ImageKeyOption("game_logo", "Game Logo"),
    ImageKeyOption("status_online", "Status Online"),
    ImageKeyOption("status_idle", "Status Idle"),
    ImageKeyOption("status_dnd", "Status DND"),
    ImageKeyOption("custom_1", "Custom 1"),
    ImageKeyOption("custom_2", "Custom 2")
  ]

  /** The identifiers alone, in the order the pickers list them. */
  function ImageKeyValues(): (r: seq<string>)
    ensures |r| == |ImageKeyOptions|
    ensures forall i :: 0 <= i < |r| ==> r[i] == ImageKeyOptions[i].value
  {
    seq(|ImageKeyOptions|, i requires 0 <= i < |ImageKeyOptions| => ImageKeyOptions[i].value)
  }

  /** There are six options and no identifier is offered twice. */
  lemma ImageKeyValuesDistinct()
    ensures |ImageKeyValues()| == 6
    ensures forall i, j :: 0 <= i < j < |ImageKeyValues()| ==> ImageKeyValues()[i] != ImageKeyValues()[j]
  {
    var v := ImageKeyValues();
    assert v == ["game_logo", "status_online", "status_idle", "status_dnd", "custom_1", "custom_2"];
  }

  /** `defaultRpcConfig`. Its `startTimestamp` is `Date.now()` read when the
      module is first evaluated, which is the parameter `loadTime` here. */
  function DefaultRpcConfig(loadTime: int): (r: RpcConfig)
    ensures r.largeImageKey in ImageKeyValues() && r.smallImageKey in ImageKeyValues()
    ensures |r.buttons| == 2 && forall i :: 0 <= i < 2 ==> r.buttons[i].caption != ""
    ensures r.showElapsedTime && !r.buttonsEnabled
    ensures r.startTimestamp == Some(loadTime)
  {
    var r := RpcConfig(
      "Playing a game",
      "In the main menu",
      "game_logo",
      "Game Logo",
      "status_online",
      "Online",
      true,
      false,
      [RpcButton("Join Game", "https://example.com"), RpcButton("Website", "https://example.com")],
      Some(loadTime));
    assert ImageKeyValues()[0] == "game_logo" && ImageKeyValues()[1] == "status_online";
    r
  }

  // ------------------------------------------------------ the record's keys

  /** `keyof RpcConfig`: the ten property names. */
  datatype Field =
    | DetailsField | StateField
    | LargeImageKeyField | LargeImageTextField
    | SmallImageKeyField | SmallImageTextField
    | ShowElapsedTimeField | ButtonsEnabledField
    | ButtonsField | StartTimestampField

  /** A property name together with a value of that property's type, as
      `updateField<K>(field: K, value: RpcConfig[K])` receives them. */
  datatype FieldValue =
    | Details(text: string) | State(text: string)
    | LargeImageKey(text: string) | LargeImageText(text: string)
    | SmallImageKey(text: string) | SmallImageText(text: string)
    | ShowElapsedTime(flag: bool) | ButtonsEnabled(flag: bool)
    | Buttons(buttons: seq<RpcButton>) | StartTimestamp(timestamp: Option<int>)

  /** The property a field value is for. */
  function KeyOf(v: FieldValue): Field
  {
    match v
    case Details(_) => DetailsField
    case State(_) => StateField
    case LargeImageKey(_) => LargeImageKeyField
    case LargeImageText(_) => LargeImageTextField
    case SmallImageKey(_) => SmallImageKeyField
    case SmallImageText(_) => SmallImageTextField
    case ShowElapsedTime(_) => ShowElapsedTimeField
    case ButtonsEnabled(_) => ButtonsEnabledField
    case Buttons(_) => ButtonsField
    case StartTimestamp(_) => StartTimestampField
  }

  /** `config[f]`, tagged with its property name. */
  function Get(c: RpcConfig, f: Field): (v: FieldValue)
    ensures KeyOf(v) == f
  {
    match f
    case DetailsField => Details(c.details)
    case StateField => State(c.state)
    case LargeImageKeyField => LargeImageKey(c.largeImageKey)
    case LargeImageTextField => LargeImageText(c.largeImageText)
    case SmallImageKeyField => SmallImageKey(c.smallImageKey)
    case SmallImageTextField => SmallImageText(c.smallImageText)
    case ShowElapsedTimeField => ShowElapsedTime(c.showElapsedTime)
    case ButtonsEnabledField => ButtonsEnabled(c.buttonsEnabled)
    case ButtonsField => Buttons(c.buttons)
    case StartTimestampField => StartTimestamp(c.startTimestamp)
  }

  /** A config is nothing but its ten properties: two configs that agree on
      every property are the same config. */
  lemma ConfigExtensionality(a: RpcConfig, b: RpcConfig)
    requires forall f :: Get(a, f) == Get(b, f)
    ensures a == b
  {
    assert Get(a, DetailsField) == Get(b, DetailsField);
    assert Get(a, StateField) == Get(b, StateField);
    assert Get(a, LargeImageKeyField) == Get(b, LargeImageKeyField);
    assert Get(a, LargeImageTextField) == Get(b, LargeImageTextField);
    assert Get(a, SmallImageKeyField) == Get(b, SmallImageKeyField);
    assert Get(a, SmallImageTextField) == Get(b, SmallImageTextField);
    assert Get(a, ShowElapsedTimeField) == Get(b, ShowElapsedTimeField);
    assert Get(a, ButtonsEnabledField) == Get(b, ButtonsEnabledField);
    assert Get(a, ButtonsField) == Get(b, ButtonsField);
    assert Get(a, StartTimestampField) == Get(b, StartTimestampField);
  }
}
