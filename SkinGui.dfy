/**
 * The in-game settings panel of skin-gui.js: the skin catalog, the key
 * handling text functions, and the `SkinSwapperGUI` object whose handlers
 * change its settings and visibility and hand the settings to the preload
 * script's `saveSettings`.
 */
module SkinGui {
  import opened Wrappers
  import opened Json
  import PreloadSettings

  // ---------------------------------------------------------------------
  // Catalog (skin-gui.js, lines 1-39)
  // ---------------------------------------------------------------------

  /** The properties of the `AVAILABLE_SKINS` literal, value and display name, in source order. */
  const SkinList: seq<(string, Json)> := [
    ("default", Str("Default")), ("bacon", Str("Bacon")), ("linen", Str("Fresh Linen")),
    ("greencamo", Str("Green Camo")), ("redcamo", Str("Red Camo")), ("tiger", Str("Tigris")),
    ("carbon", Str("Carbon Fiber")), ("cherry", Str("Blossom")), ("prism", Str("Gem Stone")),
    ("splatter", Str("Marble")), ("swirl", Str("Swirl")), ("vapor", Str("Vapor Wave")),
    ("astro", Str("Astro")), ("payday", Str("Pay Day")), ("safari", Str("Safari")),
    ("snowcamo", Str("Snow Camo")), ("rustic", Str("Royal")), ("hydro", Str("Hydrodip")),
    ("ice", Str("Frostbite")), ("silly", Str("Silly")), ("alez", Str("Alez")),
    ("horizon", Str("Horizon")), ("quackster", Str("QuaK")), ("matrix", Str("Matrix")),
    ("neon", Str("Neon")), ("winter", Str("Winter '22")), ("hlwn", Str("HLWN '23")),
    ("summer", Str("Summer '24")), ("birthday", Str("1st Birthday"))]

  /** `Object.entries(AVAILABLE_SKINS)`: the members of the object the literal builds. */
  function Catalog(): (r: seq<(string, Json)>)
    ensures DistinctKeys(r)
  {
    ObjectLiteral(SkinList)
  }

  /** `WEAPONS`: a key and a label per weapon. */
  const Weapons: seq<(string, string)> :=
    [("ar", "Assault Rifle"), ("smg", "SMG"), ("awp", "AWP"), ("shotgun", "Shotgun")]

  /** The settings used when the page was given none (lines 44-53). */
  const FallbackSettings: Json :=
    Obj([("toggleKey", Str("o")), ("uncapFPS", Bool(false)),
         ("selectedSkins", Obj([("ar", Str("ice")), ("smg", Str("ice")), ("awp", Str("matrix")),
                                ("shotgun", Str("neon"))]))])

  /**
   * The shape the panel's code relies on: `toggleKey.toUpperCase()` and
   * `toggleKey.toLowerCase()` need a string, and `selectedSkins[weapon.key]`
   * throws only on `undefined` or `null`.
   */
  predicate GuiReady(settings: Json) {
    && settings.Obj?
    && Member(settings, "toggleKey").Some? && Member(settings, "toggleKey").value.Str?
    && Member(settings, "selectedSkins").Some? && Member(settings, "selectedSkins").value != Null
  }

  /** The fallback settings have that shape; `toggleKey` is `"o"`. */
  lemma FallbackReady()
    ensures GuiReady(FallbackSettings)
    ensures Member(FallbackSettings, "toggleKey") == Some(Str("o"))
  {
    var m := FallbackSettings.members;
    assert "toggleKey"[0] != "selectedSkins"[0] && "uncapFPS"[0] != "selectedSkins"[0];
    LookupCons(m[0].0, m[0].1, m[1..]);
    LookupCons(m[1].0, m[1].1, m[2..]);
    LookupCons(m[2].0, m[2].1, []);
    assert m == [m[0]] + m[1..] && m[1..] == [m[1]] + m[2..] && m[2..] == [m[2]] + [];
  }

  /**
   * The settings object the preload script hands to the page has the shape
   * exactly when its toggle key is a string and its skin map is not `null`.
   */
  lemma PageSettingsReady(s: PreloadSettings.Settings)
    ensures GuiReady(PreloadSettings.Document(s)) <==> s.toggleKey.Str? && s.selectedSkins != Null
  {
    PreloadSettings.DocumentMembers(s);
  }

  /** Whatever the settings file holds, the page can build the panel when the resolved key is a string. */
  lemma ResolvedSettingsReady(file: Option<Json>)
    ensures var s := PreloadSettings.Resolve(file);
      GuiReady(PreloadSettings.Document(s)) <==> s.toggleKey.Str?
  {
    PreloadSettings.ResolvedTruthy(file);
    PageSettingsReady(PreloadSettings.Resolve(file));
  }

  /** `window.__SKIN_SETTINGS__ || { ...fallback }`. */
  function InitialSettings(injected: Option<Json>): (r: Json)
    ensures injected.None? ==> r == FallbackSettings
    ensures injected.Some? ==> (r == injected.value <==> Truthy(injected.value))
    ensures !(injected.Some? && Truthy(injected.value)) ==> r == FallbackSettings
  {
    if injected.Some? && Truthy(injected.value) then injected.value else FallbackSettings
  }

  // ---------------------------------------------------------------------
  // Text functions used by the key handlers
  // ---------------------------------------------------------------------

  /** `toLowerCase` on one character; only A-Z are mapped. */
  function LowerChar(c: char): char {
    if 'A' <= c <= 'Z' then (c as int + 32) as char else c
  }

  /** `toLowerCase`, on the ASCII letters. */
  function LowerCase(s: string): (r: string)
    ensures |r| == |s|
    ensures forall i :: 0 <= i < |s| ==> r[i] == LowerChar(s[i])
  {
    seq(|s|, i requires 0 <= i < |s| => LowerChar(s[i]))
  }

  predicate IsLower(s: string) {
    forall i :: 0 <= i < |s| ==> !('A' <= s[i] <= 'Z')
  }

  /** Lower-casing leaves no upper-case letter and changes nothing a second time. */
  lemma LowerCaseSpec(s: string)
    ensures IsLower(LowerCase(s))
    ensures LowerCase(LowerCase(s)) == LowerCase(s)
    ensures IsLower(s) ==> LowerCase(s) == s
  {
  }

  /** The white space and line terminators that `trim` removes. */
  predicate IsWhite(c: char) {
    || 0x09 <= c as int <= 0x0D || c as int == 0x20 || c as int == 0xA0 || c as int == 0x1680
    || 0x2000 <= c as int <= 0x200A || c as int == 0x2028 || c as int == 0x2029
    || c as int == 0x202F || c as int == 0x205F || c as int == 0x3000 || c as int == 0xFEFF
  }

  function TrimStart(s: string): string
    decreases |s|
  {
    if s != [] && IsWhite(s[0]) then TrimStart(s[1..]) else s
  }

  function TrimEnd(s: string): string
    decreases |s|
  {
    if s != [] && IsWhite(s[|s| - 1]) then TrimEnd(s[..|s| - 1]) else s
  }

  /** `trim`. */
  function Trim(s: string): string {
    TrimEnd(TrimStart(s))
  }

  lemma {:induction false} TrimStartSpec(s: string)
    ensures var r := TrimStart(s);
      && |r| <= |s| && r == s[|s| - |r|..]
      && (forall k :: 0 <= k < |s| - |r| ==> IsWhite(s[k]))
      && (r != [] ==> !IsWhite(r[0]))
    decreases |s|
  {
    if s != [] && IsWhite(s[0]) {
      TrimStartSpec(s[1..]);
      var r := TrimStart(s);
      assert s[1..][|s| - 1 - |r|..] == s[|s| - |r|..];
      forall k | 1 <= k < |s| - |r|
        ensures IsWhite(s[k])
      {
        assert s[k] == s[1..][k - 1];
      }
    }
  }

  lemma {:induction false} TrimEndSpec(s: string)
    ensures var r := TrimEnd(s);
      && |r| <= |s| && r == s[..|r|]
      && (forall k :: |r| <= k < |s| ==> IsWhite(s[k]))
      && (r != [] ==> !IsWhite(r[|r| - 1]))
    decreases |s|
  {
    if s != [] && IsWhite(s[|s| - 1]) {
      TrimEndSpec(s[..|s| - 1]);
      var r := TrimEnd(s);
      assert s[..|s| - 1][..|r|] == s[..|r|];
      forall k | |r| <= k < |s| - 1
        ensures IsWhite(s[k])
      {
        assert s[k] == s[..|s| - 1][k];
      }
    }
  }

  /**
   * `trim` cuts white space from both ends and nothing else: the result is
   * a slice of the input, everything outside it is white, and it neither
   * starts nor ends with white space.
   */
  lemma TrimSpec(s: string)
    ensures var r := Trim(s);
      exists i, j :: 0 <= i <= j <= |s| && r == s[i..j]
        && (forall k :: 0 <= k < i ==> IsWhite(s[k]))
        && (forall k :: j <= k < |s| ==> IsWhite(s[k]))
        && (r != [] ==> !IsWhite(r[0]) && !IsWhite(r[|r| - 1]))
  {
    var t := TrimStart(s);
    TrimStartSpec(s);
    TrimEndSpec(t);
    var r := Trim(s);
    var i := |s| - |t|;
    var j := i + |r|;
    assert r == s[i..j];
    forall k | j <= k < |s|
      ensures IsWhite(s[k])
    {
      assert s[k] == t[k - i];
    }
  }

  /** Trimming twice is trimming once. */
  lemma TrimIdempotent(s: string)
    ensures Trim(Trim(s)) == Trim(s)
  {
    var r := Trim(s);
    TrimEndSpec(TrimStart(s));
    TrimStartSpec(s);
    assert TrimStart(r) == r;
    assert TrimEnd(r) == r;
  }

  /** `length` counts UTF-16 code units: a character beyond U+FFFF counts two. */
  function Utf16Length(s: string): nat
    decreases |s|
  {
    if s == [] then 0 else (if s[0] as int > 0xFFFF then 2 else 1) + Utf16Length(s[1..])
  }

  /** A string has UTF-16 length 1 exactly when it is one character of the Basic Multilingual Plane. */
  lemma {:induction false} Utf16LengthOne(s: string)
    ensures |s| <= Utf16Length(s) <= 2 * |s|
    ensures Utf16Length(s) == 1 <==> |s| == 1 && s[0] as int <= 0xFFFF
    decreases |s|
  {
    if s != [] {
      Utf16LengthOne(s[1..]);
    }
  }

  /** The candidate toggle key: `value.trim().toLowerCase()`. */
  function NormalizeKey(input: string): string {
    LowerCase(Trim(input))
  }

  /** The change handler accepts the candidate when its `length` is exactly 1. */
  predicate AcceptsKey(input: string) {
    Utf16Length(NormalizeKey(input)) == 1
  }

  /**
   * An input is accepted exactly when, trimmed, it is one character of the
   * Basic Multilingual Plane; the key it then gives is that character in
   * lower case, and it is not white space.
   */
  lemma AcceptsKeySpec(input: string)
    ensures AcceptsKey(input) <==> |Trim(input)| == 1 && Trim(input)[0] as int <= 0xFFFF
    ensures AcceptsKey(input) ==>
      && NormalizeKey(input) == [LowerChar(Trim(input)[0])]
      && IsLower(NormalizeKey(input))
      && !IsWhite(NormalizeKey(input)[0])
  {
    var t := Trim(input);
    var n := NormalizeKey(input);
    Utf16LengthOne(n);
    TrimSpec(input);
    if |t| == 1 {
      assert n[0] == LowerChar(t[0]);
    }
  }

  /** `"O"` is accepted as the key `"o"`; `"ab"` and a blank input are refused. */
  lemma KeyExamples()
    ensures AcceptsKey("O") && NormalizeKey("O") == "o"
    ensures AcceptsKey(" x ") && NormalizeKey(" x ") == "x"
    ensures !AcceptsKey("ab")
    ensures !AcceptsKey("  ")
  {
    assert TrimStart("O") == "O" && TrimEnd("O") == "O";
    assert TrimStart(" x ") == TrimStart("x ") == "x ";
    assert TrimEnd("x ") == TrimEnd("x") == "x";
    assert TrimStart("ab") == "ab" && TrimEnd("ab") == "ab";
    assert TrimStart("  ") == TrimStart(" ") == TrimStart("") == "";
    Utf16LengthOne(NormalizeKey("ab"));
    Utf16LengthOne(NormalizeKey("  "));
  }

  /** `e.key.toLowerCase() === this.settings.toggleKey.toLowerCase()`. */
  predicate KeyMatches(key: string, toggleKey: string) {
    LowerCase(key) == LowerCase(toggleKey)
  }

  /**
   * The match ignores ASCII case on both sides; once a key is accepted, a
   * key press matches it exactly when the press lower-cases to that key.
   */
  lemma KeyMatchesSpec(key: string, toggleKey: string, input: string)
    ensures KeyMatches(key, toggleKey) <==> KeyMatches(LowerCase(key), LowerCase(toggleKey))
    ensures AcceptsKey(input) ==> (KeyMatches(key, NormalizeKey(input)) <==> LowerCase(key) == NormalizeKey(input))
  {
    LowerCaseSpec(key);
    LowerCaseSpec(toggleKey);
    AcceptsKeySpec(input);
    LowerCaseSpec(NormalizeKey(input));
  }

  /** An entry of a weapon's `<select>`. */
  datatype SkinOption = SkinOption(value: string, text: Json, selected: bool)

  // ---------------------------------------------------------------------
  // The panel object (lines 41-346)
  // ---------------------------------------------------------------------

  class SkinSwapperGui {
    /** `this.settings`. */
    var settings: Json
    /** `this.visible`. */
    var visible: bool
    /** The settings objects handed to `saveSettings`, oldest first. */
    var saved: seq<Json>
    /** Whether `window.electronAPI.saveSettings` exists. */
    const bridge: bool

    /**
     * The settings keep their shape, nothing is saved without the bridge,
     * and every change is followed by a save, so the last object handed
     * over is the current one.
     */
    predicate Valid()
      reads this
    {
      && GuiReady(settings)
      && (!bridge ==> saved == [])
      && (saved != [] ==> saved[|saved| - 1] == settings)
    }

    function ToggleKey(): string
      reads this
      requires GuiReady(settings)
    {
      Member(settings, "toggleKey").value.s
    }

    function SelectedSkins(): Json
      reads this
      requires GuiReady(settings)
    {
      Member(settings, "selectedSkins").value
    }

    /** Lines 42-57: take the injected settings, or the fallback, and start hidden. */
    constructor(injected: Option<Json>, hasBridge: bool)
      requires GuiReady(InitialSettings(injected))
      ensures Valid()
      ensures settings == InitialSettings(injected)
      ensures !visible && saved == [] && bridge == hasBridge
    {
      settings := InitialSettings(injected);
      visible := false;
      saved := [];
      bridge := hasBridge;
    }

    /** Lines 59-67: hand the settings over when the bridge is there. */
    method SaveSettings()
      modifies this`saved
      ensures saved == if bridge then old(saved) + [settings] else old(saved)
    {
      if bridge {
        saved := saved + [settings];
      }
    }

    /** Lines 331-335. */
    method Toggle()
      modifies this`visible
      ensures visible == !old(visible)
    {
      visible := !visible;
    }

    /** Lines 337-340. */
    method Show()
      modifies this`visible
      ensures visible
    {
      visible := true;
    }

    /** Lines 342-345. */
    method Hide()
      modifies this`visible
      ensures !visible
    {
      visible := false;
    }

    /** Lines 322-327: a key press toggles the panel exactly when it matches the toggle key. */
    method KeyDown(key: string)
      requires Valid()
      modifies this`visible
      ensures visible == (old(visible) != KeyMatches(key, ToggleKey()))
    {
      if KeyMatches(key, ToggleKey()) {
        Toggle();
      }
    }

    /**
     * Lines 175-184: the toggle-key input changed to `input`. An accepted
     * key becomes `settings.toggleKey` and is saved, and the input keeps
     * what was typed; otherwise nothing changes and the input shows the
     * current key again. Returns what the input then shows.
     */
    method ChangeToggleKey(input: string) returns (shown: string)
      requires Valid()
      modifies this`settings, this`saved
      ensures Valid()
      ensures AcceptsKey(input) ==>
        && settings == SetMember(old(settings), "toggleKey", Str(NormalizeKey(input)))
        && saved == (if bridge then old(saved) + [settings] else old(saved))
        && shown == input
      ensures !AcceptsKey(input) ==>
        && settings == old(settings) && saved == old(saved)
        && shown == ToggleKey()
    {
      var newKey := NormalizeKey(input);
      if Utf16Length(newKey) == 1 {
        settings := SetMember(settings, "toggleKey", Str(newKey));
        SaveSettings();
        shown := input;
      } else {
        shown := ToggleKey();
      }
    }

    /**
     * Lines 310-312: the `<select>` of weapon `weaponKey` changed to
     * `value`. On an object `selectedSkins` only that weapon's entry changes,
     * and the settings are saved. On an array the property is set on the
     * array, which `JSON.stringify` leaves out, so the settings as a JSON
     * value stay the same and are saved. On any other value the assignment
     * throws a TypeError in the class's strict-mode code: nothing changes and
     * nothing is saved. `done` says whether the handler ran to its end.
     */
    method SelectSkin(weaponKey: string, value: string) returns (done: bool)
      requires Valid()
      modifies this`settings, this`saved
      ensures Valid()
      ensures done <==> old(SelectedSkins()).Obj? || old(SelectedSkins()).Arr?
      ensures old(SelectedSkins()).Obj? ==>
        settings == SetMember(old(settings), "selectedSkins", SetMember(old(SelectedSkins()), weaponKey, Str(value)))
      ensures !old(SelectedSkins()).Obj? ==> settings == old(settings)
      ensures saved == if bridge && done then old(saved) + [settings] else old(saved)
    {
      var selected := SelectedSkins();
      if selected.Obj? {
        settings := SetMember(settings, "selectedSkins", SetMember(selected, weaponKey, Str(value)));
        SaveSettings();
        done := true;
      } else if selected.Arr? {
        SaveSettings();
        done := true;
      } else {
        done := false;
      }
    }

    /** Lines 214-216: the fps checkbox changed; `uncapFPS` takes its state and is saved. */
    method SetUncapFps(checked: bool)
      requires Valid()
      modifies this`settings, this`saved
      ensures Valid()
      ensures settings == SetMember(old(settings), "uncapFPS", Bool(checked))
      ensures saved == if bridge then old(saved) + [settings] else old(saved)
    {
      settings := SetMember(settings, "uncapFPS", Bool(checked));
      SaveSettings();
    }

    /**
     * Lines 300-308: the options of weapon `weaponKey`'s `<select>`, in
     * catalog order, the one whose value is the weapon's current selection
     * marked selected; at most one is.
     */
    method OptionsFor(weaponKey: string) returns (options: seq<SkinOption>)
      requires Valid()
      ensures OptionsMatch(options, Catalog(), Member(SelectedSkins(), weaponKey))
      ensures AtMostOneSelected(options)
    {
      options := BuildOptions(Catalog(), Member(SelectedSkins(), weaponKey));
    }
  }

  /**
   * One option per catalog entry, in order, with its value and display
   * name, selected exactly when `current === value`.
   */
  ghost predicate OptionsMatch(options: seq<SkinOption>, catalog: seq<(string, Json)>, current: Option<Json>) {
    && |options| == |catalog|
    && forall i :: 0 <= i < |options| ==>
      && options[i].value == catalog[i].0
      && options[i].text == catalog[i].1
      && (options[i].selected <==> StrictEq(current, Str(catalog[i].0)))
  }

  ghost predicate AtMostOneSelected(options: seq<SkinOption>) {
    forall i, j :: 0 <= i < j < |options| ==> !(options[i].selected && options[j].selected)
  }

  /** The `forEach` over the catalog entries that builds the options. */
  method BuildOptions(catalog: seq<(string, Json)>, current: Option<Json>) returns (options: seq<SkinOption>)
    requires DistinctKeys(catalog)
    ensures OptionsMatch(options, catalog, current)
    ensures AtMostOneSelected(options)
  {
    options := [];
    var n := 0;
    while n < |catalog|
      invariant 0 <= n <= |catalog|
      invariant OptionsMatch(options, catalog[..n], current)
    {
      var (value, displayName) := catalog[n];
      var selected := false;
      if StrictEq(current, Str(value)) {
        selected := true;
      }
      options := options + [SkinOption(value, displayName, selected)];
      n := n + 1;
    }
    assert catalog[..n] == catalog;
    forall i, j | 0 <= i < j < |options| && options[i].selected
      ensures !options[j].selected
    {
      assert catalog[i].0 != catalog[j].0;
    }
  }

  /** The settings member that a handler sets holds the new value, and every other member is unchanged. */
  lemma HandlerUpdates(settings: Json, selected: Json, weaponKey: string, value: string, checked: bool, key: string)
    requires GuiReady(settings) && selected == Member(settings, "selectedSkins").value
    ensures selected.Obj? ==>
      var s := SetMember(settings, "selectedSkins", SetMember(selected, weaponKey, Str(value)));
      && GuiReady(s)
      && Member(Member(s, "selectedSkins").value, weaponKey) == Some(Str(value))
      && (forall w :: w != weaponKey ==> Member(Member(s, "selectedSkins").value, w) == Member(selected, w))
      && (forall k :: k != "selectedSkins" ==> Member(s, k) == Member(settings, k))
    ensures var s := SetMember(settings, "uncapFPS", Bool(checked));
      && GuiReady(s) && Member(s, "uncapFPS") == Some(Bool(checked))
      && (forall k :: k != "uncapFPS" ==> Member(s, k) == Member(settings, k))
    ensures var s := SetMember(settings, "toggleKey", Str(key));
      && GuiReady(s) && Member(s, "toggleKey") == Some(Str(key))
      && (forall k :: k != "toggleKey" ==> Member(s, k) == Member(settings, k))
  {
    assert "uncapFPS"[0] != "toggleKey"[0] && "uncapFPS"[0] != "selectedSkins"[0];
    assert "toggleKey"[0] != "selectedSkins"[0];
  }
}
