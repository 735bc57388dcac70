# Rich-presence control panel: a Dafny model of its rules

The panel edits a "rich presence" record: two text lines, two image keys with tooltips, an elapsed-time switch, up to two link buttons and a start timestamp. It previews the record as a user card, saves named presets in local storage, and pushes the record to a companion service on `localhost:5000`. A health check drives the connection indicator. Most of the repository is JSX. This project models the rules that sit inside it:

- `rpc_types.dfy` (module `RpcTypes`): the records, the default config, the closed list of image keys, and the config's ten property names (`Field`, `FieldValue`, `Get`).
- `preview.dfy` (module `Preview`): the elapsed-time formatter, the details and state fallbacks, the small-image badge, which buttons the card draws, and the whole card (`Render`).
- `config_panel.dfy` (module `ConfigPanel`): `updateField` and `updateButton` as pure record updates. The class `Panel` holds the page config and the stored preset list, and its methods are the change handlers, save, load and the "Update Presence" button.
- `rpc_api.dfy` (module `RpcApi`): the mapping to the service's capitalised wire body, the update outcome, the health-check boolean and the mutation's toast.
- `connection_status.dfy` (module `ConnectionStatus`): the three-way label and the style groups.
- `shell.dfy` (module `Shell`): the page's initial config.
- `js_text.dfy` (module `JsText`): the JavaScript built-ins these rules rely on. These are `toString`, `padStart`, `slice(0, n)`, `join`, and `parseInt` with no radix. For `parseInt` that means leading white space, a sign, the `0x` prefix, the longest digit run, and NaN when there is none.
- `wrappers.dfy`, `toasts.dfy`: `Option`/`Result`, and a toast as a title, a description and a variant.

Conventions. Wall-clock time is a parameter (`now`, `loadTime`, `sessionStart`), in epoch milliseconds. A `prompt` answer is an `Option<string>`, with None for a cancelled dialog. What `fetch` did is a `FetchResult`:
- `Threw`: the call threw.
- `Resp(ok, body)`: a response arrived; `body` is None when the JSON body cannot be decoded.

In `Panel`, `config` is the page state the panel replaces through `onChange`, and `presets` is the decoded `"rpc-presets"` storage entry. The button property `label` is called `caption`, because `label` is reserved in Dafny.

Some behaviours of the code that the model keeps:
- The hours field is padded to two digits too, so 3661 s renders as `01:01:01 elapsed`.
- A start timestamp of `0` is falsy, so it counts as absent.
- `parseInt` accepts a `0x` prefix, so the answer `0x1` selects the first preset.
- `parseInt` stops at the first non-digit, so typing a whole listing line such as `2. Raid night` selects the preset it lists.

## Model

| member | source | states |
|---|---|---|
| `JsText.NatToString` | src/components/DiscordPreview.tsx:18 | `n.toString()`, in the plain decimal form JavaScript uses below 10^21, is a non-empty string of decimal digits whose value is `n`. It starts with '0' only for 0. It has one character below 10 and exactly two from 10 to 99 |
| `JsText.IntToString` | src/components/ConfigPanel.tsx:43 | `Date.now().toString()` is the digits of a non-negative time, or a minus sign and the digits of its magnitude |
| `JsText.RadixValueLeadingZero` | src/components/DiscordPreview.tsx:18 | a zero put in front of a digit string does not change the number it reads as |
| `JsText.PadStart` | src/components/DiscordPreview.tsx:18-20 | `padStart(w, fill)` has length max(w, \|s\|), ends with `s`, and is `fill` before that |
| `JsText.SliceTo` | src/components/DiscordPreview.tsx:98 | `slice(0, n)` is the prefix of length min(n, \|s\|) |
| `JsText.Join` | src/components/ConfigPanel.tsx:62 | `lines.join(sep)`. The function has no ensures of its own: `JoinEnds` and `JoinSnoc` specify it |
| `JsText.JoinEnds` | src/components/ConfigPanel.tsx:62 | `join` of no lines is empty. Otherwise the result starts with the first line and ends with the last |
| `JsText.JoinSnoc` | src/components/ConfigPanel.tsx:62 | joining one more line appends the separator and that line |
| `JsText.TrimStart` | src/components/ConfigPanel.tsx:65 | parseInt drops exactly the leading ECMAScript white space: the result is a suffix, everything dropped is white space, and the result does not start with white space |
| `JsText.DigitPrefix` | src/components/ConfigPanel.tsx:65 | parseInt keeps the longest run of digits: a prefix, all digits, followed by the end or by a non-digit |
| `JsText.ParseInt` | src/components/ConfigPanel.tsx:65 | `parseInt(s)` with no radix: `ParseTrimmed` of `TrimStart(s)`. The function has no ensures of its own: `ParseIntCases`, `ParseIntSkipsWhiteSpace`, `ParseIntOfNatPrefix` and `ParseIntOfIntToString` state what it reads |
| `JsText.ParseIntCases` | src/components/ConfigPanel.tsx:65 | an answer of white space only is NaN. A number is read only when something other than white space is left, and a negative number only when that rest starts with '-' |
| `JsText.ParseTrimmed` | src/components/ConfigPanel.tsx:65 | parseInt after the white space: sign, optional "0x"/"0X" prefix, longest digit run. No ensures of its own: `ParseTrimmedCases`, `ParseTrimmedDigits` and `ParseTrimmedExamples` specify it |
| `JsText.ParseTrimmedCases` | src/components/ConfigPanel.tsx:65 | after the white space: an empty text, or one starting with neither a sign nor a digit, is NaN. Only a leading '-' gives a negative number. A leading digit always gives a non-negative number, unless it starts a "0x"/"0X" prefix |
| `JsText.ParseIntSkipsWhiteSpace` | src/components/ConfigPanel.tsx:65 | white space put in front of an answer does not change what parseInt reads |
| `JsText.ParseTrimmedDigits` | src/components/ConfigPanel.tsx:65 | after the white space, a run of decimal digits followed by a non-digit is read in full, unless it is "0" before 'x' or 'X' |
| `JsText.ParseIntOfNatPrefix` | src/components/ConfigPanel.tsx:65 | parseInt reads the number back from its decimal rendering followed by any non-digit text. The one exception is "0" followed by 'x' or 'X' |
| `JsText.ParseIntOfIntToString` | src/components/ConfigPanel.tsx:65 | `parseInt(n.toString()) == n` for every integer whose rendering is plain digits (magnitude below 10^21 in JavaScript), negative ones included |
| `JsText.ParseTrimmedExamples` | src/components/ConfigPanel.tsx:65 | "+3" reads 3 and "-1" reads -1. "0x1" reads 1 as hexadecimal. "", "abc" and "0x" are NaN |
| `RpcTypes.ImageKeyValues` | src/types/rpc.ts:46-53 | the image-key identifiers are the options' values, in the pickers' order |
| `RpcTypes.ImageKeyValuesDistinct` | src/types/rpc.ts:46-53 | there are exactly six image keys, pairwise distinct |
| `RpcTypes.DefaultRpcConfig` | src/types/rpc.ts:30-44 | both default image keys are among the options. There are exactly two default buttons, both with non-empty labels. Elapsed time is on and buttons are off. The timestamp is the module's load time |
| `RpcTypes.ConfigExtensionality` | src/types/rpc.ts:6-17 | a config is determined by its ten properties: configs that agree on every property are equal |
| `Preview.ElapsedSeconds` | src/components/DiscordPreview.tsx:12 | the elapsed seconds are the floor of the elapsed milliseconds over 1000: `e*1000 <= now-start < (e+1)*1000` |
| `Preview.Split` | src/components/DiscordPreview.tsx:13-15 | `hours*3600 + minutes*60 + seconds == e`, with minutes and seconds below 60 |
| `Preview.TwoDigits` | src/components/DiscordPreview.tsx:18-20 | the reference two-digit rendering: length 2, all digits, reads as `n` |
| `Preview.Pad2` | src/components/DiscordPreview.tsx:18-20 | `n.toString().padStart(2, "0")`. The function has no ensures of its own: `Pad2Small` and `Pad2Value` specify it |
| `Preview.Pad2Small` | src/components/DiscordPreview.tsx:18-20 | below 100, `n.toString().padStart(2, "0")` is exactly the two digits of `n` |
| `Preview.Pad2Value` | src/components/DiscordPreview.tsx:18 | a padded field has at least two digits and reads as its number. From 10 up it is the plain decimal rendering |
| `Preview.FormatElapsed` | src/components/DiscordPreview.tsx:10-21 | an absent or zero start gives exactly "00:00 elapsed", whatever `now` is |
| `Preview.HmsLabel` | src/components/DiscordPreview.tsx:17-20 | the two label templates. The function has no ensures of its own: `HmsLabelShape` and `HmsLabelHoursField` state what it builds |
| `Preview.HmsLabelShape` | src/components/DiscordPreview.tsx:17-20 | below one hour the label is "MM:SS elapsed". Otherwise it is the padded hours, ":", then "MM:SS elapsed". MM and SS are the two-digit renderings |
| `Preview.HmsLabelHoursField` | src/components/DiscordPreview.tsx:18 | from one hour on, everything before the final ":MM:SS elapsed" has at least two digits and reads as the hours. From 10 hours up it is their plain decimal rendering |
| `Preview.HmsLabelInjective` | src/components/DiscordPreview.tsx:17-20 | equal labels mean equal hours, minutes and seconds |
| `Preview.FormatElapsedInjective` | src/components/DiscordPreview.tsx:10-21 | for set starts, equal labels mean equal elapsed seconds |
| `Preview.FormatElapsedExamples` | src/components/DiscordPreview.tsx:10-21 | 0 s gives "00:00 elapsed", 65 s gives "01:05 elapsed", and 3661 s gives "01:01:01 elapsed" |
| `Preview.DetailsLine` | src/components/DiscordPreview.tsx:107 | empty details show "No details set". Other details show unchanged. The line is never empty |
| `Preview.StateLine` | src/components/DiscordPreview.tsx:110 | an empty state shows "No state set". Another state shows unchanged. The line is never empty |
| `Preview.BadgeText` | src/components/DiscordPreview.tsx:98 | the badge is the first min(2, \|smallImageKey\|) characters of the small image key |
| `Preview.ShownLabels` | src/components/DiscordPreview.tsx:123-137 | only non-empty labels are drawn, and every button with a non-empty label is drawn. Each drawn label belongs to a button |
| `Preview.ShownLabelsAppend` | src/components/DiscordPreview.tsx:123-137 | order is kept: the buttons drawn for a concatenation are those of each part, in turn |
| `Preview.ShownLabelsIgnoresUrls` | src/components/DiscordPreview.tsx:123-137 | the url plays no part: button arrays with the same labels draw the same buttons |
| `Preview.ShownLabelsExample` | src/components/DiscordPreview.tsx:121-137 | a button with an empty label and a url is hidden. A button labelled "Join" with an empty url is drawn |
| `Preview.ShowsButtons` | src/components/DiscordPreview.tsx:121 | the button section appears iff buttons are enabled and at least one button would be drawn |
| `Preview.Render` | src/components/DiscordPreview.tsx:88-139 | the card shows the large key, the badge `BadgeText` (at most two characters), and the details and state lines `DetailsLine` and `StateLine` (never empty). It has an elapsed line iff the switch is on, and that line is `FormatElapsed` of the start at `now`. It has a button section iff buttons are enabled and some label is non-empty, and that section is the drawn labels |
| `RpcApi.ToWire` | src/hooks/useRpcApi.ts:14-28 | each scalar property goes to its capitalised counterpart unchanged. `Buttons` has the same length and order, with `Label`/`Url` from each button. `StartTimestamp` passes through, and absent stays absent |
| `RpcApi.WireRoundTrip` | src/hooks/useRpcApi.ts:14-28 | the config can be read back from its wire body, so the mapping loses nothing |
| `RpcApi.WireRoundTripBack` | src/hooks/useRpcApi.ts:14-28 | every wire body is the body of the config read from it, so the mapping is onto |
| `RpcApi.AttemptUpdate` | src/hooks/useRpcApi.ts:8-35 | the `try` block: a throw of `fetch` is a fetch failure. A non-ok status throws "Failed to update presence". An undecodable body is a body failure. Otherwise the decoded body is returned |
| `RpcApi.UpdatePresence` | src/hooks/useRpcApi.ts:7-41 | success iff a response arrived, was ok and its body decoded, and the result is then that body. Every failure is the one connection-failed message |
| `RpcApi.InnerErrorNeverEscapes` | src/hooks/useRpcApi.ts:31-39 | whatever the attempt threw (fetch failure, non-ok status, bad body), the caller gets the connection-failed error, never "Failed to update presence" |
| `RpcApi.CheckConnection` | src/hooks/useRpcApi.ts:43-53 | true iff a response arrived with an ok status. A throw or a timeout is false |
| `RpcApi.MutationToast` | src/hooks/useRpcApi.ts:55-71 | success raises "Presence Updated" (not destructive). Failure raises "Connection Error" carrying the error message, destructive |
| `RpcApi.FailedUpdateToast` | src/hooks/useRpcApi.ts:57-70 | all failed updates raise the same toast, whose description is the connection-failed message |
| `ConfigPanel.WithField` | src/components/ConfigPanel.tsx:26-31 | the edited property has the new value, and every other property, `buttons` included, is unchanged |
| `ConfigPanel.WithFieldSameValue` | src/components/ConfigPanel.tsx:26-31 | writing back a property's own value gives the same config |
| `ConfigPanel.WithFieldOverwrite` | src/components/ConfigPanel.tsx:26-31 | of two edits of the same property, the later wins |
| `ConfigPanel.WithFieldCommute` | src/components/ConfigPanel.tsx:26-31 | edits of different properties commute |
| `ConfigPanel.WithButtonField` | src/components/ConfigPanel.tsx:33-37 | the button array keeps its length. Other slots are unchanged. In the edited slot, only the chosen property changes, to the new value. All non-button properties are unchanged |
| `ConfigPanel.TruthyExamples` | src/components/ConfigPanel.tsx:42-64 | the `if (name)` and `if (selection)` tests (`Truthy`): a cancelled dialog and an empty answer are falsy, and spaces or "0" are truthy |
| `ConfigPanel.SavedToast` | src/components/ConfigPanel.tsx:45-48 | the save toast is titled "Preset Saved" and is not destructive |
| `ConfigPanel.NoPresetsToast` | src/components/ConfigPanel.tsx:55-59 | the empty-store toast is titled "No Presets" and is destructive |
| `ConfigPanel.LoadedToast` | src/components/ConfigPanel.tsx:68-71 | the load toast is titled "Preset Loaded" and is not destructive |
| `ConfigPanel.ListingLine` | src/components/ConfigPanel.tsx:62 | line `i` is longer than the name and the ". " before it, so it is never empty |
| `ConfigPanel.ListingLineName` | src/components/ConfigPanel.tsx:62 | line `i` ends with ". " and the preset's name |
| `ConfigPanel.ListingLineNumber` | src/components/ConfigPanel.tsx:62-65 | parseInt reads `i + 1` back from the whole of line `i` |
| `ConfigPanel.ListedLineSelects` | src/components/ConfigPanel.tsx:62-66 | answering with a whole listed line picks that line's preset |
| `ConfigPanel.Listing` | src/components/ConfigPanel.tsx:62 | the listing, `Join` of the lines with newlines. The function has no ensures of its own: `ListingShape` and `ListingSnoc` specify it |
| `ConfigPanel.ListingShape` | src/components/ConfigPanel.tsx:62 | the listing is empty iff there are no presets, and it opens with the line of the first preset |
| `ConfigPanel.ListingSnoc` | src/components/ConfigPanel.tsx:62 | the listing of one preset is "1. name". Each further preset adds a newline and "{i+1}. {name}" |
| `ConfigPanel.PromptText` | src/components/ConfigPanel.tsx:63 | the dialog text. The function has no ensures of its own: `PromptTextShape` specifies it |
| `ConfigPanel.PromptTextShape` | src/components/ConfigPanel.tsx:63 | the dialog text is "Select preset:" and a newline, then the listing, then a blank line and "Enter number:". The listing can be cut back out of it |
| `ConfigPanel.SelectedIndex` | src/components/ConfigPanel.tsx:64-66 | an answer picks index `i` only if it is truthy, `i` is a valid index and `parseInt(answer) == i + 1`. It picks nothing iff the answer is cancelled or empty, NaN, or outside 1..\|presets\| |
| `ConfigPanel.SelectedIndexOfNumber` | src/components/ConfigPanel.tsx:65-66 | the answer "n" picks index n-1 when 1 <= n <= \|presets\| and nothing otherwise. So "0", negative numbers and numbers past the end pick nothing |
| `ConfigPanel.SaveThenSelect` | src/components/ConfigPanel.tsx:43-67 | after appending a preset, the answer that is the new length picks exactly that preset |
| `ConfigPanel.Panel.constructor` | src/components/ConfigPanel.tsx:18-21 | the panel starts from the page's config and the stored presets |
| `ConfigPanel.Panel.UpdateField` | src/components/ConfigPanel.tsx:26-31 | the page config becomes `WithField` of the old one, and the presets are untouched |
| `ConfigPanel.Panel.UpdateButton` | src/components/ConfigPanel.tsx:33-37 | the page config becomes `WithButtonField` of the old one, and the presets are untouched |
| `ConfigPanel.Panel.SavePreset` | src/components/ConfigPanel.tsx:39-50 | a truthy name appends exactly `{id: now.toString(), name, config}` and raises the "saved" toast. A whitespace-only name counts as truthy. A cancelled or empty name leaves the list unchanged and raises nothing. The config is never changed |
| `ConfigPanel.Panel.LoadPreset` | src/components/ConfigPanel.tsx:52-74 | an empty list raises "No Presets" and shows no dialog. Otherwise the dialog shows the listing. A picked preset's config replaces the page config and raises "Preset Loaded". Any other answer changes nothing and raises nothing. The list is never changed |
| `ConfigPanel.Panel.PushPresence` | src/components/ConfigPanel.tsx:235 | "Update Presence" sends the wire form of the current config and raises exactly one toast, the mutation's toast for the update's outcome: success, or the connection error. No state changes |
| `ConfigPanel.SaveEditLoad` | src/components/ConfigPanel.tsx:39-74 | save, then any edit, then loading the new preset by its number restores the saved config, and the new preset is at the end of the list |
| `ConnectionStatus.Classify` | src/components/ConnectionStatus.tsx:17-32 | "Connecting" iff loading. "Connected" iff not loading and the cached result is true. "Disconnected" iff not loading and the result is false or absent |
| `ConnectionStatus.Label` | src/components/ConnectionStatus.tsx:17-32 | each state has its own text: "Connecting...", ".NET Connected" or "Disconnected", and each text belongs to exactly one state |
| `ConnectionStatus.LabelInjective` | src/components/ConnectionStatus.tsx:17-32 | the three labels are distinct, so exactly one label names each state |
| `ConnectionStatus.StyleOf` | src/components/ConnectionStatus.tsx:12-14 | muted iff loading, green iff connected, destructive iff neither loading nor connected |
| `ConnectionStatus.DestructiveIffDisconnected` | src/components/ConnectionStatus.tsx:12-32 | the destructive style applies iff the label is "Disconnected" |
| `ConnectionStatus.LoadingTakesPrecedence` | src/components/ConnectionStatus.tsx:12-21 | the conditional tests the loading flag first: while loading, the label is "Connecting..." and the style is muted, never destructive, whatever the cached result. The green class depends on the result alone |
| `Shell.InitialConfig` | src/pages/Index.tsx:9-12 | the initial config equals the default in every property except `startTimestamp`, which is the session's start time |
| `Shell.InitialConfigIgnoresLoadTime` | src/pages/Index.tsx:9-12 | the default's own load-time timestamp never reaches the page |

## Left out

- The JSX layout, CSS classes, icons, the `Select` and `Switch` widgets and the page composition. They are presentation. Only the three style groups of the indicator are kept.
- `fetch`, HTTP, `AbortSignal.timeout(2000)` and the react-query machinery (`useMutation`, `useQuery`, the 5 s `refetchInterval`, `retry: false`, `isPending` disabling the button). Also overlapping or out-of-order health checks. These are network I/O and framework scheduling. Only the classification of one call's outcome is modelled (`FetchResult`).
- The `useEffect`/`setInterval` tick of the preview and its cleanup, which is timer and lifecycle concurrency. `Render` takes the time of the latest tick as `now`. The empty `elapsedTime` state shown before the first tick, and a label left stale after the switch is turned off and on, are not modelled.
- `localStorage` JSON encoding and decoding, `prompt()` and `toast()`, which are browser facilities. The stored list is a decoded `seq` field. `JSON.parse` throwing on malformed storage is not modelled. Answers are `Option<string>` inputs. Toasts are returned values.
- Preview.FormatElapsed: requires `now >= start` for a set start. With clock skew, JavaScript's `%` on negative numbers gives labels the formatter does not intend.
- ConfigPanel.WithButtonField: requires an index inside the array. In JavaScript a larger index would grow the array or leave holes, but the editor only passes the indices of the slots it draws.
- JsText.ParseInt: numbers are unbounded integers. The loss of precision of IEEE doubles above 2^53 is not modelled; no such number is a valid preset position.
- RpcApi.UpdatePresence: a body is treated as decoded (`Some`) or not. The model does not capture that `response.json()` accepts any JSON value and the code trusts it to be an `ApiResponse`.
- JsText.NatToString: from 10^21 on, JavaScript's `toString` switches to exponent form (`"1e+21"`), which `parseInt` reads as 1. The model always renders plain digits, so `ParseIntOfIntToString` holds for every integer in the model and only below 10^21 in JavaScript. The values the panel renders are far smaller: ids near 1.7·10^12, list positions and hours.
- Preview.BadgeText: Dafny strings count Unicode scalar values, while `slice(0, 2)` counts UTF-16 code units. A small image key that starts with a character outside the Basic Multilingual Plane gets a different badge in the model. The pickers offer only ASCII keys.
- Preset ids are not checked for uniqueness. Two saves in the same millisecond get the same id, as in the code.
