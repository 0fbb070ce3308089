# streamdeck-mqtt bridge coordinator, modelled in Dafny

This project models the coordinator class `StreamDeckMQTT` of the
streamdeck-mqtt bridge (`src/StreamDeckMQTT.py`). The class connects one
Stream Deck with an MQTT broker. It subscribes to a fixed set of topics and
routes each inbound topic by suffix: `/brightness`, `/sleep`, `/wake`,
`/config` or `/config/<i>`. It updates the in-memory configuration
(`brightness` and `keys`) and saves it to `data.json`. It redraws key icons
and publishes four status topics on every key event.

Files:

- `wrappers.dfy`: module `Wrappers`, the `Option` datatype.
- `text.dfy`: module `Text`. Decimal rendering of key indices, Python's
  `int(...)`, `endswith`/`startswith`, and `split(sep).pop()`.
- `keyspec.dfy`: module `KeySpec`. Key entries as decoded JSON values,
  Python truthiness, icon selection, and the default configuration loop.
- `topics.dfy`: module `Topics`. Dispatch of `on_message`, the
  subscription list of `init`, and the topics of `key_change_callback`.
- `session.dfy`: module `Session`. The coordinator as a pure state machine,
  one function per handler, with the lemmas that state what the handlers
  promise.
- `bridge.dfy`: module `Bridge`. The class `StreamDeckMQTT` with the same
  fields and methods. Each method is proved to move `State()` exactly as
  the matching `Session` function says. `UpdateKeys`, `Init` and
  `DefaultConfig` keep the source's loops.

Outside effects become recorded state or parameters:

- `deck.set_brightness` sets `devBrightness`.
- `deck.set_key_image` updates `images`.
- `deck.reset` clears `images`.
- `subscribe` and `publish` append to `subscriptions` and `published`.
- `json.dump` to `data.json` sets `saved`.
- `json.loads` on a message payload is one of two abstract decoders in
  `Session.Env`. The result of `json.load` on `data.json` is the
  constructor's `loaded` parameter.
- Fetching and rasterising an icon is an abstract success predicate,
  `Env.renders`.
- An exception that escapes a handler is the `ok == false` outcome.

Behaviour of the code that a reader might not expect:

- Brightness is not clamped to [0, 100]. Any integer payload goes to the
  device and into the configuration as it is.
- The bare-index topics `streamdeck/<k>` and `streamdeck/<sn>/<k>` are
  published on press as well as on release (lines 223 and 225).
- The default key list holds one `{}` per key, not `[]` (lines 56-58).
- The bulk refresh is not best-effort for every failure. A non-empty entry
  without an `icon` raises at line 189, outside the `try`, and so ends
  the pass. Every failure from line 191 on (a non-string icon, the fetch,
  XML, rasterising, the device push) is isolated per key.
- `wake` re-saves the document: it calls `update_brightness`.
- After `init` the device runs at brightness 100, not at the configured value.
- A `/config/<i>` entry without an icon is stored in memory but not saved.

## Model

| member | source | states |
|---|---|---|
| `Bridge.StreamDeckMQTT.constructor` | src/StreamDeckMQTT.py:41-62 | the configuration is the loaded `data.json`, or brightness 60 with one `{}` per key; the saved document is what was loaded; the call to `init()` at line 64 is not part of the constructor, and `Init` is a separate method the caller runs next |
| `Session.Initial` | src/StreamDeckMQTT.py:46-58 | the start state holds the loaded document and saved = loaded; without one, brightness 60 and exactly `key_count` `{}` entries; no images, calls, subscriptions or publications yet |
| `KeySpec.DefaultConfig` | src/StreamDeckMQTT.py:51-58 | the default document has brightness 60 and exactly `key_count` entries, each `{}` |
| `KeySpec.DefaultKeysAreEmpty` | src/StreamDeckMQTT.py:56-58 | every default entry is falsy, so a refresh skips it |
| `Session.DefaultStartup` | src/StreamDeckMQTT.py:49-64 | with the default document, `init` visits no key, draws nothing, cannot raise, leaves the device at 100 and subscribes to the full list |
| `Session.Init` | src/StreamDeckMQTT.py:89-124 | the device is at 100 with the subscription list appended and the configuration unchanged; it raises exactly when a non-empty entry lacks an icon; the keys visited and the images drawn are those of the trace, starting from a reset device |
| `Bridge.StreamDeckMQTT.Init` | src/StreamDeckMQTT.py:89-124 | sets the device to 100, clears its images, appends the subscription list in order, then runs the bulk refresh and reports whether it raised |
| `Topics.SubscriptionsLength` | src/StreamDeckMQTT.py:97-114 | `init` subscribes to 10 + 2 * key_count topics |
| `Topics.Subscriptions` | src/StreamDeckMQTT.py:97-114 | (definition, no contract) the ten control topics of lines 97-110 followed by the two per-key topics of each key, in order |
| `Topics.KeyConfigTopicsAt` | src/StreamDeckMQTT.py:112-114 | the loop subscribes for key i to `streamdeck/config/<i>` and then `streamdeck/<sn>/config/<i>`, at positions 2i and 2i+1 |
| `Topics.ControlSubscriptionsRoute` | src/StreamDeckMQTT.py:100-110 | the eight control subscriptions, global and device-scoped, reach the brightness, sleep, wake and whole-config handlers |
| `Topics.KeySubscriptionsRoute` | src/StreamDeckMQTT.py:112-114 | both per-key subscriptions of key i reach the single-key update of key i |
| `Topics.AnyConfigIndex` | src/StreamDeckMQTT.py:151 | true exactly when some index in range ends the topic as `/config/<x>` |
| `Topics.Classify` | src/StreamDeckMQTT.py:141-152 | a single-key route names an index below key_count whose `/config/<x>` suffix ends the topic |
| `Topics.ClassifyOrder` | src/StreamDeckMQTT.py:141-152 | first match in the order brightness, sleep, wake, config, config/<x>, both directions of each case; a key topic goes to the one index its suffix names; anything else is ignored |
| `Topics.KeyIndexOfTopic` | src/StreamDeckMQTT.py:151-152 | when a `/config/<x>` suffix matched, `int(topic.split('/').pop())` cannot raise and yields that x |
| `Topics.ConfigSuffixUnique` | src/StreamDeckMQTT.py:151 | at most one key index matches a topic |
| `Topics.ControlTopicsRoute` | src/StreamDeckMQTT.py:143-150 | `<prefix>/brightness`, `/sleep`, `/wake`, `/config` reach their handlers whatever the prefix |
| `Topics.KeyConfigTopicRoute` | src/StreamDeckMQTT.py:151-152 | `<prefix>/config/<i>` with i < key_count reaches the update of key i whatever the prefix |
| `Text.LastSegment` | src/StreamDeckMQTT.py:152 | `split(sep).pop()` is the longest suffix free of the separator |
| `Text.LastSegmentAfter` | src/StreamDeckMQTT.py:152 | the segment after the last separator is recovered whatever precedes it |
| `Text.NatToString` | src/StreamDeckMQTT.py:113 | the decimal text of an index is all digits, non-empty, without a leading zero |
| `Text.DigitsValueOfNatToString` | src/StreamDeckMQTT.py:152 | reading the digits of a rendered index gives the index back |
| `Text.NatToStringInjective` | src/StreamDeckMQTT.py:151 | different indices give different topic suffixes |
| `Text.ParseIntOfIntToString` | src/StreamDeckMQTT.py:144 | `int(str(i)) == i` for every integer, negative ones included |
| `Text.ParseIntLeadingZero` | src/StreamDeckMQTT.py:144 | a brightness payload with leading zeros parses to the same value |
| `Text.ParseInt` | src/StreamDeckMQTT.py:144 | (definition, no contract) `int(...)`: an optional sign, then decimal digits |
| `Text.ParseIntAccepts` | src/StreamDeckMQTT.py:144 | a payload parses exactly when every character is a digit, except an optional leading sign, and the last one is a digit |
| `Session.BrightnessMessage` | src/StreamDeckMQTT.py:143-144 | an integer payload b sets the device and the configured brightness to b, unclamped, saves the document with unchanged keys and touches nothing else; any other payload raises and changes nothing |
| `Session.UpdateBrightness` | src/StreamDeckMQTT.py:154-158 | the device and the configured brightness become b, the saved document equals memory afterwards, and nothing else changes |
| `Session.Sleep` | src/StreamDeckMQTT.py:160-161 | the device goes to 0 and nothing else changes |
| `Session.Wake` | src/StreamDeckMQTT.py:163-164 | the device returns to the configured brightness, the configuration is unchanged and is saved; nothing else changes |
| `Bridge.StreamDeckMQTT.UpdateBrightness` | src/StreamDeckMQTT.py:154-158 | the device and `config["brightness"]` become b and the whole document is saved |
| `Bridge.StreamDeckMQTT.Sleep` | src/StreamDeckMQTT.py:160-161 | only the device brightness changes, to 0 |
| `Bridge.StreamDeckMQTT.Wake` | src/StreamDeckMQTT.py:163-164 | the configured brightness is re-applied through `update_brightness` |
| `Session.SleepThenWake` | src/StreamDeckMQTT.py:160-164 | sleep leaves the configuration and saved document alone, and a wake afterwards restores the configured brightness, not 0 |
| `Session.SleepWakeMessages` | src/StreamDeckMQTT.py:145-148 | `<prefix>/sleep` then `<prefix>/wake`, whatever the payloads, end at the configured brightness with the configuration unchanged |
| `Bridge.SleepWakeSession` | src/StreamDeckMQTT.py:145-148 | on the object, sleep then wake on the device's own topics ends at the brightness configured before |
| `Session.ConfigMessage` | src/StreamDeckMQTT.py:149-150 | a decoded list becomes the key list exactly, brightness unchanged, saved before the refresh, and the bulk refresh then runs over the new list (visits and images as its trace says); an undecodable payload changes nothing; nothing raises |
| `Session.UpdateConfig` | src/StreamDeckMQTT.py:166-174 | on a decoded list: keys replaced, document saved with the old brightness, the refresh's visits appended and its images drawn over the new list, nothing else changed; on a failed decode: nothing changes |
| `Bridge.StreamDeckMQTT.UpdateConfig` | src/StreamDeckMQTT.py:166-174 | replace the keys, save, refresh, on a decoded payload; none of it otherwise |
| `Session.ConfigKeyFrame` | src/StreamDeckMQTT.py:176-184 | only entry k changes, and only to the payload; it is saved exactly when the entry has an icon; `update_key(k)` is entered once and only key k's image can change, to its drawing; an undecodable payload or k past the list changes nothing |
| `Session.UpdateConfigKey` | src/StreamDeckMQTT.py:176-184 | on a decoded payload and k in range: entry k replaced, one `update_key(k)` call recorded, only key k redrawn; otherwise nothing changes |
| `Session.SavedLagsMemory` | src/StreamDeckMQTT.py:179-182 | storing an icon-less entry leaves `data.json` behind memory |
| `Bridge.StreamDeckMQTT.UpdateConfigKey` | src/StreamDeckMQTT.py:176-184 | replace entry k, refresh it, save only if the refresh did not raise |
| `Session.ReplaceAllThenKey` | src/StreamDeckMQTT.py:166-184 | a whole-list replace then a single-key update yields the submitted list with that one entry changed |
| `Session.MalformedConfigIgnored` | src/StreamDeckMQTT.py:166-184 | malformed JSON on either config topic leaves memory and the saved document exactly as they were |
| `Session.OnMessage` | src/StreamDeckMQTT.py:141-152 | an unmatched topic changes nothing; only a non-integer brightness payload raises, and then nothing changes; no handler subscribes or publishes |
| `Bridge.StreamDeckMQTT.OnMessage` | src/StreamDeckMQTT.py:141-152 | routes the topic and runs the chosen handler, reporting the escaping exception |
| `KeySpec.MemberMeaning` | src/StreamDeckMQTT.py:189 | a member lookup finds the last member of that name, and fails exactly when there is none |
| `KeySpec.Truthy` | src/StreamDeckMQTT.py:215 | `bool(c)` is false exactly for null, false, 0, "", [] and {} |
| `KeySpec.IconOf` | src/StreamDeckMQTT.py:189 | (definition, no contract) `key_config["icon"]`, None where the lookup raises |
| `KeySpec.ColorOf` | src/StreamDeckMQTT.py:195-196 | (definition, no contract) `key_config["color"]` when present |
| `KeySpec.EntryLookups` | src/StreamDeckMQTT.py:189-196 | the icon lookup succeeds exactly on an object with an `icon` member, and a colour is found exactly on an object with a `color` member |
| `KeySpec.SelectIcon` | src/StreamDeckMQTT.py:191-204 | a string icon starting with `mdi:` is fetched with the entry's colour, or "blue", as fill; any other string is inline markup; a non-string icon draws nothing |
| `KeySpec.RemoteAssetName` | src/StreamDeckMQTT.py:38 | the asset fetched for an `mdi:` icon is the text after its last colon, at the template URL |
| `KeySpec.IconFetchesMdiName` | src/StreamDeckMQTT.py:191-199 | an icon `mdi:` followed by a name without colons downloads that name with the SVG suffix from the Material Design icon repository |
| `Bridge.StreamDeckMQTT.UpdateKey` | src/StreamDeckMQTT.py:186-210 | records the call, raises when the entry has no icon, pushes the image only when it renders |
| `Session.UpdateKey` | src/StreamDeckMQTT.py:186-210 | the call is recorded; it raises exactly when the entry has no icon; only key k's image can change, to its drawing when it draws; nothing else changes |
| `Bridge.StreamDeckMQTT.UpdateKeys` | src/StreamDeckMQTT.py:212-216 | the loop is the bulk refresh pass and stops at the first exception |
| `Session.UpdateKeys` | src/StreamDeckMQTT.py:212-216 | the bulk refresh raises exactly when a non-empty entry lacks an icon; when it does not, it has visited exactly the non-empty entries in order; visits and images follow the trace; only the call log and images change |
| `Session.RefreshUpTo` | src/StreamDeckMQTT.py:212-216 | the pass changes only the call log and the key images |
| `Session.RefreshFollowsTrace` | src/StreamDeckMQTT.py:186-216 | the pass appends exactly the trace's visits to the call log and raises exactly when the trace does, so neither depends on any fetch or render outcome |
| `Session.TraceOk` | src/StreamDeckMQTT.py:186-216 | the pass returns normally exactly when no non-empty entry lacks an icon |
| `Session.TraceAscending` | src/StreamDeckMQTT.py:212-216 | keys are visited in strictly ascending order, all within the range walked |
| `Session.TraceMembers` | src/StreamDeckMQTT.py:212-216 | a key is visited exactly when it is non-empty and no earlier non-empty entry lacked an icon |
| `Session.TraceComplete` | src/StreamDeckMQTT.py:212-216 | a pass that does not raise visits exactly the non-empty entries, ascending |
| `Session.TraceStopped` | src/StreamDeckMQTT.py:186-216 | once the pass has raised, later entries are not visited |
| `Session.NonEmptyBelowMeaning` | src/StreamDeckMQTT.py:214-215 | the reference list holds each non-empty index once, ascending |
| `Session.RefreshDraws` | src/StreamDeckMQTT.py:205-216 | the images after the pass are those the entries alone determine |
| `Session.TraceImageAt` | src/StreamDeckMQTT.py:205-216 | after the pass key i shows its new image if it was visited and drew, else the image it had |
| `Session.RefreshImages` | src/StreamDeckMQTT.py:205-216 | the same for the state-level pass, for every key |
| `Session.RefreshStopped` | src/StreamDeckMQTT.py:186-216 | once the pass has raised, later entries change nothing in the state |
| `Session.BrokenEntryStopsPass` | src/StreamDeckMQTT.py:186-216 | the first non-empty entry without an icon is the last key visited, and the pass raises |
| `Bridge.StreamDeckMQTT.KeyChangeCallback` | src/StreamDeckMQTT.py:219-226 | each key event appends exactly the four status topics, in order |
| `Session.KeyChange` | src/StreamDeckMQTT.py:219-226 | exactly the four event topics are appended to the publications, in order; nothing else changes |
| `Topics.KeyEventTopics` | src/StreamDeckMQTT.py:223-226 | (definition, no contract) `streamdeck/<k>`, `streamdeck/<k>/<down or up>`, `streamdeck/<sn>/<k>`, `streamdeck/<sn>/<k>/<down or up>` |
| `Topics.KeyEventTopicsDistinct` | src/StreamDeckMQTT.py:223-226 | the four topics of one event are pairwise distinct |
| `Topics.KeyEventDirection` | src/StreamDeckMQTT.py:223-226 | the bare-index topics are the same on press and release; the others end in `/down` exactly on press, `/up` exactly on release |
| `Topics.KeyEventIndex` | src/StreamDeckMQTT.py:223-225 | the key index is the last segment of both bare-index topics |

## Left out

- Device SDK calls (`open`, `reset`, `set_brightness`, `set_key_image`, `key_image_format`, `PILHelper`, `set_key_callback`): hardware I/O. Only their effects are recorded: device brightness, images per key, and `reset` as clearing the images. `images` records each push, not whether the device accepted it: after a `/config` list longer than `key_count`, an index at or past `key_count` whose icon renders is recorded, although `set_key_image` would raise there and the `try` would swallow it. Whether `reset` also changes the brightness is not modelled.
- The MQTT transport (`loop_forever`, `loop_stop`, `disconnect`, connection set-up): network I/O. `subscribe` and `publish` are appends; the empty publish payload is not recorded.
- Icon download (`requests.get`), XML parsing, `cairosvg.svg2png` and PIL compositing: network and foreign libraries. Together they are the success predicate `Env.renders` on the selected icon source.
- `json.load`, `json.loads`, `json.dump` and the `data.json` file: foreign library and file I/O. Decoding is an abstract function and saving is a snapshot assignment.
- Session.Initial: a loaded `data.json` whose shape is not `{brightness: int, keys: list}` is not modelled.
- Session.UpdateConfig: a `/config` payload that is valid JSON but not an array (which the code stores as `keys`) is not modelled; the decoder for that topic yields a list or failure.
- Bridge.StreamDeckMQTT.UpdateConfig: the same restriction to array payloads.
- KeySpec.Truthy: JSON numbers are integers only, so `bool` of a fractional number is not modelled.
- Text.ParseInt: accepts an optional sign and ASCII digits only; `int` on the bytes payload also strips surrounding whitespace, accepts `_` between digits, and rejects more than 4300 digits.
- The `print` calls (lines 50, 57, 62, 73, 91, 139, 174, 184 and 210): console output only; nothing else depends on them.
- Key entries compare as written: a `JObj` keeps member order and duplicate names, so two objects Python's dict equality treats as equal can be distinct values here. `Session.SavedLagsMemory`'s `s.keys[k] != e` and the equalities of `Session.MalformedConfigIgnored` and `Session.ReplaceAllThenKey` are about these values.
- Bridge.StreamDeckMQTT.constructor: stops before the `self.init()` call of line 64; `Init` is a separate method, so a caller constructing the object must run it next.
- Signal handling, `stop()`, `sys.exit`, the `running` flag and the `threading.enumerate()` join loop: process and concurrency plumbing.
- What happens to the program after an exception escapes a handler (paho re-raising out of `loop_forever`, or `__init__` raising when the first refresh fails): the model only reports `ok == false`.
- The `with deck:` lock around key events, and concurrency between the event and message threads: the model runs handlers one at a time.
- The `else` branch of `init` for a missing deck: the model always has a device.
- `keySchema` and `keyCollectionSchema`: declared but never used for validation.
- `src/main.py` (environment checks, device enumeration, MQTT connect, `print_deck_info`) and `test_changes.py`: I/O wiring and textual checks, not part of this model.
