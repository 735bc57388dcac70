/** The editor (src/components/ConfigPanel.tsx): single-property edits of the
    config, edits of one button slot, and the preset store kept in local
    storage, saved to and loaded from through `prompt` dialogs.

    The pure edits are functions. The state they act on is the class
    `Panel`: the page's config, which the panel replaces through its
    `onChange` callback, and the list of presets as stored under
    "rpc-presets". A `prompt` answer is an `Option<string>` (None when the
    dialog is cancelled), `Date.now()` is a parameter, and each toast the
    panel raises is returned. */
module ConfigPanel {
  import opened Wrappers
  import opened JsText
  import opened Toasts
  import opened RpcTypes
  import opened RpcApi

  // ------------------------------------------------------------------ edits

  /** `updateField(field, value)`: `{ ...config, [field]: value }`. */
  function WithField(c: RpcConfig, v: FieldValue): (r: RpcConfig)
    ensures Get(r, KeyOf(v)) == v
    ensures forall f :: f != KeyOf(v) ==> Get(r, f) == Get(c, f)
  {
    match v
    case Details(x) => c.(details := x)
    case State(x) => c.(state := x)
    case LargeImageKey(x) => c.(largeImageKey := x)
    case LargeImageText(x) => c.(largeImageText := x)
    case SmallImageKey(x) => c.(smallImageKey := x)
    case SmallImageText(x) => c.(smallImageText := x)
    case ShowElapsedTime(x) => c.(showElapsedTime := x)
    case ButtonsEnabled(x) => c.(buttonsEnabled := x)
    case Buttons(x) => c.(buttons := x)
    case StartTimestamp(x) => c.(startTimestamp := x)
  }

  /** Writing back the value a property already has changes nothing. */
  lemma WithFieldSameValue(c: RpcConfig, f: Field)
    ensures WithField(c, Get(c, f)) == c
  {
    ConfigExtensionality(WithField(c, Get(c, f)), c);
  }

  /** The later of two edits of the same property wins. */
  lemma WithFieldOverwrite(c: RpcConfig, v: FieldValue, w: FieldValue)
    requires KeyOf(v) == KeyOf(w)
    ensures WithField(WithField(c, v), w) == WithField(c, w)
  {
    ConfigExtensionality(WithField(WithField(c, v), w), WithField(c, w));
  }

  /** Edits of different properties do not interfere. */
  lemma WithFieldCommute(c: RpcConfig, v: FieldValue, w: FieldValue)
    requires KeyOf(v) != KeyOf(w)
    ensures WithField(WithField(c, v), w) == WithField(WithField(c, w), v)
  {
    ConfigExtensionality(WithField(WithField(c, v), w), WithField(WithField(c, w), v));
  }

  /** The two properties of a button slot the editor can change. */
  datatype ButtonField = LabelField | UrlField

  function ButtonGet(b: RpcButton, f: ButtonField): string
  {
    match f
    case LabelField => b.caption
    case UrlField => b.url
  }

  /** `updateButton(index, field, value)`: a copy of the button array whose
      slot `index` is the old button with one property replaced, put into a
      copy of the config. */
  function WithButtonField(c: RpcConfig, i: nat, f: ButtonField, v: string): (r: RpcConfig)
    requires i < |c.buttons|
    ensures |r.buttons| == |c.buttons|
    ensures forall j :: 0 <= j < |c.buttons| && j != i ==> r.buttons[j] == c.buttons[j]
    ensures ButtonGet(r.buttons[i], f) == v
    ensures forall g :: g != f ==> ButtonGet(r.buttons[i], g) == ButtonGet(c.buttons[i], g)
    ensures forall g :: g != ButtonsField ==> Get(r, g) == Get(c, g)
  {
    var slot := c.buttons[i];
    var updated := match f
      case LabelField => slot.(caption := v)
      case UrlField => slot.(url := v);
    WithField(c, Buttons(c.buttons[i := updated]))
  }

  // ---------------------------------------------------------------- presets

  /** Whether a `prompt` answer is truthy: not cancelled and not empty. An
      answer of spaces only is truthy. */
  predicate Truthy(answer: Option<string>) {
    answer.Some? && answer.value != ""
  }

  /** JavaScript truthiness of a dialog answer: a cancelled dialog and an
      empty answer are falsy; spaces and the text "0" are truthy. */
  lemma TruthyExamples()
    ensures !Truthy(None) && !Truthy(Some(""))
    ensures Truthy(Some(" ")) && Truthy(Some("0"))
  {
  }

  /** The toast after a save: the name, in quotes, opens the description. */
  function SavedToast(name: string): (t: Toast)
    ensures t.title == "Preset Saved" && !t.destructive
  {
    var quoted := "\"" + name + "\"";
    assert (quoted + " has been saved to your presets.")[..|quoted|] == quoted;
    Toast("Preset Saved", quoted + " has been saved to your presets.", false)
  }

  /** The only destructive toast of the preset store. */
  function NoPresetsToast(): (t: Toast)
    ensures t.title == "No Presets" && t.destructive
  {
    Toast("No Presets", "You haven't saved any presets yet.", true)
  }

  /** The toast after a load: the name, in quotes, opens the description. */
  function LoadedToast(name: string): (t: Toast)
    ensures t.title == "Preset Loaded" && !t.destructive
  {
    var quoted := "\"" + name + "\"";
    assert (quoted + " has been loaded.")[..|quoted|] == quoted;
    Toast("Preset Loaded", quoted + " has been loaded.", false)
  }

  /** Line `i` of the selection listing: the 1-based position, then ". "
      and the name. */
  function ListingLine(i: nat, p: RpcPreset): (r: string)
    ensures |r| > |p.name| + 2
  {
    NatToString(i + 1) + (". " + p.name)
  }

  /** `presets.map((p, i) => `${i + 1}. ${p.name}`).join("\n")`. */
  function Listing(presets: seq<RpcPreset>): string {
    Join(seq(|presets|, i requires 0 <= i < |presets| => ListingLine(i, presets[i])), "\n")
  }

  /** The listing is empty exactly when there are no presets, and it opens
      with the line of the first one. */
  lemma ListingShape(presets: seq<RpcPreset>)
    ensures Listing(presets) == "" <==> presets == []
    ensures presets != [] ==>
              |ListingLine(0, presets[0])| <= |Listing(presets)| &&
              Listing(presets)[..|ListingLine(0, presets[0])|] == ListingLine(0, presets[0])
  {
    var lines := seq(|presets|, i requires 0 <= i < |presets| => ListingLine(i, presets[i]));
    JoinEnds(lines, "\n");
    assert presets != [] ==> lines[0] == ListingLine(0, presets[0]) && lines[0] != "";
  }

  /** Typing a whole line of the listing, number, dot and name, picks the
      preset that line lists. */
  lemma ListedLineSelects(presets: seq<RpcPreset>, i: nat)
    requires i < |presets|
    ensures SelectedIndex(presets, Some(ListingLine(i, presets[i]))) == Some(i)
  {
    ListingLineNumber(i, presets[i]);
  }

  /** A listing line ends with ". " and the name. */
  lemma ListingLineName(i: nat, p: RpcPreset)
    ensures ListingLine(i, p)[|ListingLine(i, p)| - |p.name| - 2..] == ". " + p.name
  {
  }

  /** parseInt reads a listing line's position back from the whole line. */
  lemma ListingLineNumber(i: nat, p: RpcPreset)
    ensures ParseInt(ListingLine(i, p)) == Some(i + 1)
  {
    var rest := ". " + p.name;
    assert rest[0] == '.' && !IsDigitIn(rest[0], 10);
    ParseIntOfNatPrefix(i + 1, rest);
    assert ListingLine(i, p) == NatToString(i + 1) + rest;
  }

  /** The listing of one preset is its line; one more preset adds a newline
      and its line at the end. */
  lemma ListingSnoc(presets: seq<RpcPreset>, p: RpcPreset)
    ensures presets == [] ==> Listing([p]) == "1. " + p.name
    ensures presets != [] ==>
              Listing(presets + [p]) == Listing(presets) + "\n" + ListingLine(|presets|, p)
  {
    var lines := seq(|presets|, i requires 0 <= i < |presets| => ListingLine(i, presets[i]));
    var more := presets + [p];
    var moreLines := seq(|more|, i requires 0 <= i < |more| => ListingLine(i, more[i]));
    assert moreLines == lines + [ListingLine(|presets|, p)];
    if presets == [] {
      assert NatToString(1) == "1";
    } else {
      JoinSnoc(lines, ListingLine(|presets|, p), "\n");
    }
  }

  /** The text of the selection dialog. */
  function PromptText(presets: seq<RpcPreset>): string {
    "Select preset:\n" + Listing(presets) + "\n\nEnter number:"
  }

  /** The dialog text is a heading line, the listing, a blank line and the
      request for a number; the listing can be cut back out of it. */
  lemma PromptTextShape(presets: seq<RpcPreset>)
    ensures |PromptText(presets)| == 15 + |Listing(presets)| + 15
    ensures PromptText(presets)[..15] == "Select preset:\n"
    ensures PromptText(presets)[|PromptText(presets)| - 15..] == "\n\nEnter number:"
    ensures PromptText(presets)[15..|PromptText(presets)| - 15] == Listing(presets)
  {
  }

  /** The preset an answer to the selection dialog picks: `parseInt(answer) - 1`
      when that is a position of the list, and none for a cancelled or empty
      answer, NaN, 0, negative numbers and numbers past the end. */
  function SelectedIndex(presets: seq<RpcPreset>, answer: Option<string>): (r: Option<nat>)
    ensures r.Some? ==> Truthy(answer) && r.value < |presets| && ParseInt(answer.value) == Some(r.value + 1)
    ensures r.None? ==> !Truthy(answer) || ParseInt(answer.value).None?
                        || ParseInt(answer.value).value < 1 || ParseInt(answer.value).value > |presets|
  {
    if !Truthy(answer) then None
    else
      match ParseInt(answer.value)
      case None => None
      case Some(n) => if 1 <= n <= |presets| then Some(n - 1) else None
  }

  /** Typing a number picks the preset at that 1-based position if there is
      one, and nothing otherwise. */
  lemma SelectedIndexOfNumber(presets: seq<RpcPreset>, n: int)
    ensures SelectedIndex(presets, Some(IntToString(n))) == if 1 <= n <= |presets| then Some(n - 1) else None
  {
    ParseIntOfIntToString(n);
  }

  /** The preset just appended is the one its listed number selects. */
  lemma SaveThenSelect(presets: seq<RpcPreset>, p: RpcPreset)
    ensures SelectedIndex(presets + [p], Some(NatToString(|presets| + 1))) == Some(|presets|)
    ensures (presets + [p])[|presets|] == p
  {
    SelectedIndexOfNumber(presets + [p], |presets| + 1);
  }

  // ------------------------------------------------------------ the panel

  class Panel {
    /** The page's config as the panel sees it through its props; the panel
        replaces it only through `onChange`. */
    var config: RpcConfig
    /** The presets stored under "rpc-presets", already decoded. */
    var presets: seq<RpcPreset>

    constructor (initial: RpcConfig, stored: seq<RpcPreset>)
      ensures config == initial && presets == stored
    {
      config := initial;
      presets := stored;
    }

    /** An input's change handler calling `updateField`. */
    method UpdateField(v: FieldValue)
      modifies this
      ensures config == WithField(old(config), v)
      ensures presets == old(presets)
    {
      config := WithField(config, v);
    }

    /** A button input's change handler, for one of the slots on screen. */
    method UpdateButton(i: nat, f: ButtonField, v: string)
      requires i < |config.buttons|
      modifies this
      ensures config == WithButtonField(old(config), i, f, v)
      ensures presets == old(presets)
    {
      var newButtons := config.buttons;
      var slot := newButtons[i];
      newButtons := newButtons[i := if f == LabelField then slot.(caption := v) else slot.(url := v)];
      config := config.(buttons := newButtons);
    }

    /** `handleSavePreset` with the dialog's answer `name` and `Date.now()`
        as `now`: a truthy name appends one preset holding the current config
        and raises the "saved" toast; a cancelled or empty one does nothing. */
    method SavePreset(name: Option<string>, now: int) returns (toast: Option<Toast>)
      modifies this
      ensures config == old(config)
      ensures Truthy(name) ==>
                presets == old(presets) + [RpcPreset(IntToString(now), name.value, old(config))]
                && toast == Some(SavedToast(name.value))
      ensures !Truthy(name) ==> presets == old(presets) && toast == None
    {
      var stored := presets;
      toast := None;
      if name.Some? && name.value != "" {
        stored := stored + [RpcPreset(IntToString(now), name.value, config)];
        presets := stored;
        toast := Some(SavedToast(name.value));
      }
    }

    /** `handleLoadPreset` with the dialog's answer `answer`. With no presets
        it raises the "no presets" toast and shows no dialog. Otherwise it
        shows the listing and, if the answer picks a preset, replaces the
        config by that preset's config and raises the "loaded" toast; any
        other answer changes nothing and raises nothing. */
    method LoadPreset(answer: Option<string>) returns (dialog: Option<string>, toast: Option<Toast>)
      modifies this
      ensures presets == old(presets)
      ensures presets == [] ==> config == old(config) && dialog == None && toast == Some(NoPresetsToast())
      ensures presets != [] ==> dialog == Some(PromptText(presets))
      ensures presets != [] && SelectedIndex(presets, answer).Some? ==>
                var i := SelectedIndex(presets, answer).value;
                config == presets[i].config && toast == Some(LoadedToast(presets[i].name))
      ensures presets != [] && SelectedIndex(presets, answer).None? ==> config == old(config) && toast == None
    {
      var stored := presets;
      if |stored| == 0 {
        dialog, toast := None, Some(NoPresetsToast());
        return;
      }
      dialog, toast := Some(PromptText(stored)), None;
      if answer.Some? && answer.value != "" {
        var parsed := ParseInt(answer.value);
        if parsed.Some? && 0 <= parsed.value - 1 < |stored| {
          var index := parsed.value - 1;
          config := stored[index].config;
          toast := Some(LoadedToast(stored[index].name));
        }
      }
    }

    /** The "Update Presence" button: `updatePresence.mutate(config)` with
        `outcome` for what the network did. It sends the wire form of the
        current config, raises exactly one toast, and changes no state. */
    method PushPresence(outcome: FetchResult) returns (request: WireConfig, toast: Toast)
      ensures request == ToWire(config)
      ensures toast == MutationToast(UpdatePresence(outcome))
      ensures UpdatePresence(outcome).Success? ==> toast.title == "Presence Updated"
      ensures UpdatePresence(outcome).Failure? ==>
                toast == Toast("Connection Error", ConnectionFailedMessage, true)
    {
      request := ToWire(config);
      toast := MutationToast(UpdatePresence(outcome));
    }
  }

  /** A client of the panel: saving under a name, editing, then picking the
      new preset by its number restores the config that was saved. */
  method SaveEditLoad(p: Panel, name: string, now: int, edit: FieldValue)
    requires name != ""
    modifies p
    ensures p.presets == old(p.presets) + [RpcPreset(IntToString(now), name, old(p.config))]
    ensures p.config == old(p.config)
  {
    ghost var before := p.presets;
    ghost var preset := RpcPreset(IntToString(now), name, p.config);
    var saved := p.SavePreset(Some(name), now);
    assert p.presets == before + [preset];
    p.UpdateField(edit);
    SaveThenSelect(before, preset);
    var answer := Some(NatToString(|p.presets|));
    assert SelectedIndex(p.presets, answer) == Some(|before|);
    var dialog, loaded := p.LoadPreset(answer);
  }
}
