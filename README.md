# Simplicity: skin injection, settings resolution and the settings panel

Simplicity is an Electron wrapper around a browser game. Its preload script
(`preload.js`) does three things this project models:

- It picks the settings file from a `--settings-path=` argument, or falls back
  to `settings.json` beside the script.
- It overlays the fields of that file onto built-in defaults.
- It replaces the page's `JSON.parse`. Whenever the parsed value looks like the
  game's player data (an array `skins`, an array `equippedSkins`, a string
  `username`), the replacement adds the skins the user picked to `skins` and
  equips them in `equippedSkins`.

The in-page panel (`skin-gui.js`) is an object with a visibility flag and a
settings object. Its handlers toggle the panel and rebind the toggle key.
They also change the per-weapon skin choice and the frame-rate checkbox, and
they hand the settings back to the preload script to be saved.

The model is split into five modules:

- `Wrappers`: `Option` and `Result`.
- `Json`: a parsed JavaScript value.
  - An object is a sequence of members in property order.
  - A missing member is `None`, which stands for `undefined`.
  - Property assignment replaces the member in place or appends it.
  - Truthiness and `===` follow JavaScript. Two parsed objects or arrays are never identical.
- `SkinInjection`: the replacement parser's body.
  - The specification functions are `Step`, `InjectAll` and `InjectPlayerData`.
  - The imperative loop `InjectEntries` and the wrapper `Inject` that calls it are proved equal to them.
  - The lemmas about those functions state what the source promises.
- `PreloadSettings`: the settings path, the defaults, and the field-by-field
  overlay.
  - The class `Preload` holds the five module-level variables and the settings file.
  - The file is one of three values: missing, unparsable, or holding a parsed value.
- `SkinGui`: the skin catalog, the key text functions (`trim`, `toLowerCase`,
  UTF-16 `length`), and the class `SkinSwapperGui` with its handlers.
  - The field `saved` records the settings objects handed to `saveSettings`.

## Model

| member | source | states |
|---|---|---|
| SkinInjection.InjectPlayerData | preload.js:293-330 | A value without array `skins`, array `equippedSkins` and string `username` is returned unchanged. On player data, the result is player data with the same keys, and only `skins` and `equippedSkins` can differ. A TypeError happens only for a `null` selection or a `null` element in one of the arrays. |
| SkinInjection.Inject | preload.js:293-330 | The imperative wrapper returns exactly `InjectPlayerData` of the parsed value and the selection. |
| SkinInjection.InjectEntries | preload.js:306-326 | The `for` loop, which pushes into `skins` and assigns `equippedSkins[idx]`, returns exactly `InjectAll` over the pairs in order. The first error ends it. |
| SkinInjection.Entries | preload.js:306 | `Object.entries` of the selection fails exactly on `null`. An object gives its members in order. |
| SkinInjection.SkinRecordMatches | preload.js:309-312 | The record `{name, weapon, wear: 0}` holds the pair's weapon. It matches its own name under `===` exactly when that name is a primitive. |
| SkinInjection.OwnedSpec | preload.js:312 | `skins.some(...)` is true exactly when some element has the same name and weapon. It cannot throw on an array without `null`, and throws only if the array has one. |
| SkinInjection.FindWeaponSpec | preload.js:318 | `findIndex` gives the first index holding the weapon, or -1 when no element holds it. It throws only on a `null` element. |
| SkinInjection.FindWeapon | preload.js:318 | The index found is -1 or a valid index. |
| SkinInjection.IsPlayerData | preload.js:297-302 | The signature test: an object with array `skins`, array `equippedSkins` and string `username`. |
| SkinInjection.Owned | preload.js:312 | `skins.some(...)`: it stops at the first match, and throws on a `null` it reaches first. |
| SkinInjection.InjectAll | preload.js:306-326 | The whole loop over the pairs, in order. The first error ends it. |
| SkinInjection.Step | preload.js:307 | A skipped pair (empty or `"default"`) returns the arrays unchanged. |
| SkinInjection.StepSpec | preload.js:307-323 | A pair that is not skipped appends its record to `skins` exactly when no element has the same name and weapon. It overwrites the first index that holds its weapon, or appends the record when no index does. |
| SkinInjection.StepNulls | preload.js:312-323 | A step throws only when one of the arrays holds `null`, and it adds no `null`. |
| SkinInjection.SkippedPairsChangeNothing | preload.js:307 | A mapping whose every skin is empty or `"default"` leaves both arrays as they were. |
| SkinInjection.OnlyActivePairsMatter | preload.js:307 | Dropping the skipped pairs does not change the outcome. |
| SkinInjection.InjectAllTotal | preload.js:306-326 | With no `null` in either array, injection never throws. |
| SkinInjection.InjectAllErr | preload.js:312-323 | Injection throws only when an array holds `null`. |
| SkinInjection.SkinsGrow | preload.js:312-315 | `skins` only grows. The old elements keep their positions and values, and it grows by at most the number of pairs that are not skipped. |
| SkinInjection.SkinsAppended | preload.js:312-315 | Every appended element is the record of some pair that is not skipped, and no element before it has that name and weapon. |
| SkinInjection.WeaponsKept | preload.js:318-323 | Every old index of `equippedSkins` keeps its weapon. The array grows by at most the number of pairs that are not skipped. |
| SkinInjection.EquippedAppended | preload.js:318-323 | Every element of `equippedSkins` after injection is either the old element at that index or the record of a pair that is not skipped, with no earlier element holding that pair's weapon. So every appended element is such a record. |
| SkinInjection.FirstIndexKept | preload.js:318 | The first index that holds a weapon is still the first one after injection. |
| SkinInjection.OnlyFirstIndicesChange | preload.js:318-323 | The only old index of `equippedSkins` that can change is the first index that held the weapon of some pair that is not skipped. |
| SkinInjection.StepEquips | preload.js:318-323 | After a step for a pair that is not skipped, its record sits at the first index that holds its weapon. |
| SkinInjection.SelectionEquipped | preload.js:318-323 | When the mapping has distinct weapons, every pair that is not skipped ends up equipped at the first index for its weapon. |
| SkinInjection.EquippedPosition | preload.js:318-323 | A selected record lands at the old first index for its weapon. If no old index held that weapon, it lands at a new index past the old end. |
| SkinInjection.SelectionOwned | preload.js:312-315 | After injection, every selected skin with a primitive name is in `skins`. |
| SkinInjection.FindWeaponAt | preload.js:318 | `findIndex` returns an index exactly when it is the first index holding the weapon and no `null` comes before it. A `null` after the match is never reached. |
| SkinInjection.OwnedExtend | preload.js:312 | A match that `some` finds stays found when elements are appended. |
| SkinInjection.StepOwns | preload.js:312-315 | After a non-skipped step with a primitive name, `some` finds that skin. |
| SkinInjection.StepFinds | preload.js:318-323 | After a non-skipped step, `findIndex` for its weapon returns the index that holds its record. |
| SkinInjection.StepKeepsFound | preload.js:318-323 | A step for another weapon leaves unchanged the index `findIndex` returns for a weapon, and the record at it. |
| SkinInjection.FoundKept | preload.js:306-326 | Pairs for other weapons leave the index `findIndex` returns for a weapon, and its record, in place. |
| SkinInjection.SelectionFound | preload.js:306-326 | After a successful run with distinct weapons, `some` finds every selected skin with a primitive name, and `findIndex` returns the index of every selected record. |
| SkinInjection.InjectFixedPoint | preload.js:312-322 | When `some` already finds every selected skin and `findIndex` already returns its record, injection changes nothing. `null` elements after the matches are allowed. |
| SkinInjection.NullAfterMatchExample | preload.js:312-322 | Arrays `[rec, null]` with the pair `ar: "ice"` are left unchanged, because the `null` is never reached. |
| SkinInjection.InjectAllIdempotent | preload.js:312-322 | After any run that succeeds, with distinct weapons and primitive names, running the loop again over its output gives the same arrays. `null` elements are allowed. |
| SkinInjection.InjectPlayerDataIdempotent | preload.js:312-322 | Whenever the replacement parser succeeds on a selection with distinct weapons and primitive names, parsing its result again gives the same value, so no duplicates are created. |
| SkinInjection.StepOnEmpty | preload.js:309-323 | On empty arrays, a pair that is not skipped adds its record to both. |
| SkinInjection.FreshPlayerDataShape | preload.js:297-302 | An object with empty arrays and a string `username` is player data with empty arrays. |
| SkinInjection.SinglePairOnEmpty | preload.js:306-326 | One non-skipped pair on empty arrays gives one record in each array. |
| SkinInjection.SinglePairOnFreshData | preload.js:293-330 | On player data with two empty arrays, one non-skipped pair writes a one-record array into both `skins` and `equippedSkins`. |
| SkinInjection.IceForArExample | preload.js:293-330 | The selection `{ar: "ice"}` on fresh player data gives `[{name:"ice", weapon:"ar", wear:0}]` in both arrays and keeps `username`. |
| SkinInjection.IceForArStable | preload.js:293-330 | Parsing that result again gives the same value. |
| SkinInjection.DefaultSkinExample | preload.js:307 | A selection of `"default"` leaves player data unchanged. |
| PreloadSettings.FindSettingsArgSpec | preload.js:10 | `find` gives the first argument that starts with `--settings-path=`, and none exactly when no argument does. |
| PreloadSettings.SplitJoin | preload.js:13 | Joining the pieces of `split` with the separator gives back the string. |
| PreloadSettings.SplitPieces | preload.js:13 | No piece of `split` holds the separator. |
| PreloadSettings.FlagArgPath | preload.js:13 | For a flag argument, `split('=')[1]` is the text after the flag up to the next `=` or the end. |
| PreloadSettings.SettingsPath | preload.js:9-24 | `split('=')[1]` of the first flag argument, or `path.join(__dirname, 'settings.json')`. |
| PreloadSettings.SettingsPathSpec | preload.js:9-24 | With no flag argument, the path is `settings.json` in the script's directory. Otherwise it is the text after the flag in the first flag argument, up to the next `=`. |
| PreloadSettings.Overlay | preload.js:65-91 | The five truthy or defined tests applied to the old values. `None` stands for the `catch` of a failed read or parse. |
| PreloadSettings.OverlaySpec | preload.js:65-91 | Unfolds the overlay's definition field by field: `toggleKey` and `selectedSkins` are taken only when truthy, and the other three fields whenever they are defined. A failed read or parse, or a falsy parsed value, changes nothing. What the overlay achieves is stated by `SaveThenLoad`, `OverlayIdempotent`, `ResolveStable` and `MissingFieldsKeepDefaults`. |
| PreloadSettings.FailedLoadKeepsDefaults | preload.js:89-91 | A read or parse failure leaves every field at its default. |
| PreloadSettings.MissingFieldsKeepDefaults | preload.js:30-47 | A field absent from the file keeps its default: `"o"`, `false`, `true`, `false` and the four default skins. |
| PreloadSettings.OverlayIdempotent | preload.js:65-91 | Loading the same file twice is the same as loading it once. |
| PreloadSettings.DocumentMembers | preload.js:342-348 | The settings object holds the five values under their names. |
| PreloadSettings.SaveThenLoad | preload.js:65-105 | Saving settings whose key and skin map are truthy and loading them back gives exactly those settings. |
| PreloadSettings.ResolvedTruthy | preload.js:30-76 | The resolved toggle key and skin map are always truthy, and the skin map is never `null`. |
| PreloadSettings.ResolveStable | preload.js:65-105 | Resolving, saving the result and resolving again gives the same settings. |
| PreloadSettings.MissingFileGivesDefaults | preload.js:49-91 | A missing file resolves to the defaults, whether or not writing the default file succeeds. |
| PreloadSettings.Preload.constructor | preload.js:8-47 | The path is `SettingsPath` of the arguments, and all five variables hold their defaults. |
| PreloadSettings.Preload.EnsureFile | preload.js:49-63 | A missing file becomes the default document when the write succeeds. Otherwise nothing changes. |
| PreloadSettings.Preload.LoadSettings | preload.js:65-91 | The five variables become the overlay of their old values with the file's contents. The path and the file do not change. |
| PreloadSettings.Preload.SaveSettings | preload.js:95-105 | When the write succeeds the file takes the given object. Otherwise it keeps its content. The result reports whether the write succeeded. |
| PreloadSettings.Preload.PageSettings | preload.js:342-348 | The page's settings object holds the current toggle key and skin map. |
| PreloadSettings.Startup | preload.js:8-91 | The loaded settings are the resolution of the file, and the defaults when the file was missing. |
| PreloadSettings.SaveAndRestart | preload.js:65-105 | A save followed by a restart loads back the saved settings. |
| SkinGui.Catalog | skin-gui.js:2-32 | The catalog entries have distinct values. |
| SkinGui.FallbackReady | skin-gui.js:44-53 | The fallback settings have the shape the panel relies on, with the toggle key `"o"`. |
| SkinGui.InitialSettings | skin-gui.js:44-53 | The injected settings are used exactly when they are truthy. When they are missing or falsy, the result is the fallback. |
| SkinGui.PageSettingsReady | skin-gui.js:44 | The preload script's settings object has the shape the panel relies on exactly when its key is a string and its skin map is not `null`. |
| SkinGui.ResolvedSettingsReady | skin-gui.js:44 | Whatever the settings file holds, the page can build the panel exactly when the resolved toggle key is a string. |
| SkinGui.LowerCaseSpec | skin-gui.js:324 | Lower-casing leaves no upper-case letter, is idempotent, and leaves lower-case text unchanged. |
| SkinGui.Trim | skin-gui.js:176 | `trim`, over the ECMAScript white space and line terminators. |
| SkinGui.NormalizeKey | skin-gui.js:176 | The candidate key: `value.trim().toLowerCase()`. |
| SkinGui.TrimSpec | skin-gui.js:176 | `trim` gives a contiguous slice with no white space at either end, and it removes only white space. |
| SkinGui.TrimIdempotent | skin-gui.js:176 | Trimming twice is the same as trimming once. |
| SkinGui.Utf16LengthOne | skin-gui.js:177 | The UTF-16 `length` is 1 exactly when the text is one character of the Basic Multilingual Plane. |
| SkinGui.AcceptsKeySpec | skin-gui.js:176-177 | An input is accepted exactly when, trimmed, it is one BMP character. The key is then that character in lower case, and it is not white space. |
| SkinGui.KeyExamples | skin-gui.js:176-177 | `"O"` and `" x "` are accepted as `"o"` and `"x"`. `"ab"` and a blank input are refused. |
| SkinGui.KeyMatches | skin-gui.js:324 | `e.key.toLowerCase() === toggleKey.toLowerCase()`. |
| SkinGui.KeyMatchesSpec | skin-gui.js:324 | The match ignores ASCII case on both sides. Against an accepted key, a press matches exactly when it lower-cases to that key. |
| SkinGui.SkinSwapperGui.constructor | skin-gui.js:42-57 | The panel starts hidden, with the injected settings or the fallback, and nothing saved. |
| SkinGui.SkinSwapperGui.SaveSettings | skin-gui.js:59-67 | The settings are handed over exactly when the bridge exists. |
| SkinGui.SkinSwapperGui.Toggle | skin-gui.js:331-335 | `visible` flips, so two toggles restore it. |
| SkinGui.SkinSwapperGui.Show | skin-gui.js:337-340 | `visible` becomes true, and showing twice is the same as once. |
| SkinGui.SkinSwapperGui.Hide | skin-gui.js:342-345 | `visible` becomes false, and hiding twice is the same as once. |
| SkinGui.SkinSwapperGui.KeyDown | skin-gui.js:322-327 | The panel toggles exactly when the key, lower-cased, equals the lower-cased toggle key. Otherwise `visible` is unchanged. |
| SkinGui.SkinSwapperGui.ChangeToggleKey | skin-gui.js:175-184 | An accepted input sets `toggleKey` to the trimmed, lower-cased key and saves. Otherwise settings and saves are unchanged, and the input shows the old key. |
| SkinGui.SkinSwapperGui.SelectSkin | skin-gui.js:310-312 | On an object skin map, only `selectedSkins[weapon]` takes the chosen value, and the settings are saved. On an array the JSON value is unchanged, and it is saved. On any other value the strict-mode assignment throws, so nothing changes and nothing is saved. |
| SkinGui.SkinSwapperGui.SetUncapFps | skin-gui.js:214-216 | `uncapFPS` takes the checkbox state, and the settings are saved. |
| SkinGui.SkinSwapperGui.OptionsFor | skin-gui.js:300-308 | The options follow catalog order. An option is selected exactly when its value `===` the weapon's selection, and at most one is. |
| SkinGui.BuildOptions | skin-gui.js:300-308 | The `forEach` builds one option per catalog entry, in order, and at most one is selected when the values are distinct. |
| SkinGui.HandlerUpdates | skin-gui.js:311 | Each handler's assignment sets its member and leaves every other settings member, and every other weapon, unchanged. |
| Json.LookupDistinct | preload.js:30-41 | With distinct keys, each member is found under its own key. |
| Json.AssignDistinct | skin-gui.js:2-32 | Property assignment keeps the keys distinct. |
| Json.ObjectLiteral | skin-gui.js:2-32 | An object literal yields members with distinct keys. |
| Json.Lookup | preload.js:69 | A property is defined exactly when some member has that key, and its value is that member's value. |
| Json.Assign | skin-gui.js:311 | Assignment sets the key and leaves other keys unchanged. It keeps the key order, and a new key goes at the end. |
| Json.SetMember | skin-gui.js:311 | Assigning to an object gives an object in which the key holds the new value and every other property is unchanged. |
| Json.AssignTwice | skin-gui.js:311 | Assigning the same value twice is the same as assigning it once. |
| Json.AssignExisting | preload.js:329 | Writing back a member's own value changes nothing. |

## Left out

- JSON text parsing, `JSON.stringify` and the reviver argument: the model starts from the parsed value, and a settings file is missing, unparsable, or holds a parsed value.
- The file system: `existsSync`, `mkdirSync`, `readFileSync` and `writeFileSync` are reduced to that three-way file value and a flag saying whether a write succeeds.
- `path.join` normalisation: the fallback path is the directory, `/`, and `settings.json`. The two `isDev` branches are identical, so they are modelled once.
- The replacement parser's object identity: the pushed record and the equipped record are one object in the source, shared between the two arrays, and the parsed arrays are changed in place. The model works on values, so that sharing is not captured.
- `Object.entries` ordering of integer-like keys: an object's members keep the order of the member sequence. A string selection is indexed by character rather than by UTF-16 unit.
- `toLowerCase` beyond ASCII: only `A`-`Z` are mapped.
- Lone UTF-16 surrogates: a Dafny `char` cannot hold one, though `e.target.value` can. `Utf16Length` and `Trim` never see that case.
- Objects with repeated keys: `Entries` on such an `Obj` would yield repeated pairs, which `Object.entries` cannot. `JSON.parse` never produces such an object, so this does not arise.
- JavaScript numbers are IEEE doubles, but the model's numbers are exact reals. A number-valued skin name that rounds to the same double as another, or overflows to `Infinity`, compares differently under `===` and truthiness than in the model.
- The DOM: the panel's construction and styling, the header text after a key change, the restart notice and its fade, and option rendering beyond the list of options.
- Fullscreen neutralisation, `contextBridge` and `ipcRenderer` internals, the window-control signals, and `main.js`.
- Console logging everywhere.
- SkinGui.SkinSwapperGui.constructor: requires the chosen settings to be an object with a string `toggleKey` and a `selectedSkins` that is neither `undefined` nor `null`. Otherwise the source throws while building the panel: `toggleKey.toUpperCase()` at skin-gui.js:111 needs a string, and `selectedSkins[weapon.key]` at skin-gui.js:304 throws on `undefined` or `null`. The thrown constructor is not modelled.
- SkinGui.SkinSwapperGui.SelectSkin: on an array skin map the source sets a named property on the array. The model's arrays have no named properties, so this is modelled as no change to the JSON value, which is also what `JSON.stringify` saves.
- SkinInjection.InjectAllIdempotent: requires distinct weapons and primitive skin names. An object-valued name is never `===` the freshly parsed one of a second parse, so the source really does push its record again.
- SkinInjection.InjectPlayerDataIdempotent: requires the same two conditions on the selection, for the same reason.
- SkinInjection.SelectionEquipped: requires distinct weapons, which `Object.entries` guarantees for an object selection.
- Json.ObjectLiteral: states distinct keys, but not which keys the literal holds.
- The `uncapFPS || false` checkbox initial state: the checkbox's appearance is not modelled.
