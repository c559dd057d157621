/**
 * How the preload script finds, creates and reads its settings file
 * (preload.js, lines 8-91), and the settings object it hands to the page
 * (lines 342-348) and writes back on request (lines 95-105).
 */
module PreloadSettings {
  import opened Wrappers
  import opened Json

  // ---------------------------------------------------------------------
  // Text helpers: `indexOf` and `split` on a one-character separator
  // ---------------------------------------------------------------------

  /** The first index of `c` in `s`, or -1. */
  function IndexOf(s: string, c: char): (r: int)
    ensures -1 <= r < |s|
    ensures r == -1 <==> c !in s
    ensures r != -1 ==> s[r] == c && c !in s[..r]
  {
    if s == [] then -1
    else if s[0] == c then 0
    else
      var r := IndexOf(s[1..], c);
      assert r != -1 ==> s[1..][..r] == s[1..r + 1];
      if r == -1 then -1 else r + 1
  }

  /** `s.split(sep)` for a one-character separator. */
  function Split(s: string, sep: char): (r: seq<string>)
    ensures r != []
    decreases |s|
  {
    var i := IndexOf(s, sep);
    if i == -1 then [s] else [s[..i]] + Split(s[i + 1..], sep)
  }

  /** The pieces glued back together with the separator between them. */
  function Join(parts: seq<string>, sep: char): string
    requires parts != []
    decreases |parts|
  {
    if |parts| == 1 then parts[0] else parts[0] + [sep] + Join(parts[1..], sep)
  }

  /** `split` cuts `s` into pieces that join back to `s`. */
  lemma {:induction false} SplitJoin(s: string, sep: char)
    ensures Join(Split(s, sep), sep) == s
    decreases |s|
  {
    var i := IndexOf(s, sep);
    if i != -1 {
      var rest := s[i + 1..];
      SplitJoin(rest, sep);
      var parts := Split(s, sep);
      assert parts == [s[..i]] + Split(rest, sep);
      assert parts[1..] == Split(rest, sep);
      assert Join(parts, sep) == s[..i] + [sep] + Join(parts[1..], sep);
      assert s == s[..i] + [sep] + rest;
    }
  }

  /** No piece of `split` holds the separator. */
  lemma {:induction false} SplitPieces(s: string, sep: char)
    ensures forall k :: 0 <= k < |Split(s, sep)| ==> sep !in Split(s, sep)[k]
    decreases |s|
  {
    var i := IndexOf(s, sep);
    if i != -1 {
      var rest := s[i + 1..];
      SplitPieces(rest, sep);
      var r := Split(s, sep);
      assert r == [s[..i]] + Split(rest, sep);
      assert r[0] == s[..i] && sep !in r[0];
      forall k | 1 <= k < |r|
        ensures sep !in r[k]
      {
        assert r[k] == Split(rest, sep)[k - 1];
      }
    }
  }

  /** The second piece of `split` is the text between the first and second separator. */
  lemma SecondPiece(s: string, sep: char)
    requires sep in s
    ensures |Split(s, sep)| >= 2
    ensures var i := IndexOf(s, sep);
      Split(s, sep)[1] == Split(s[i + 1..], sep)[0]
  {
    SplitJoin(s[IndexOf(s, sep) + 1..], sep);
  }

  /** The first piece of `split` is the longest prefix without the separator. */
  lemma FirstPiece(s: string, sep: char)
    ensures var p := Split(s, sep)[0];
      && sep !in p && |p| <= |s| && s[..|p|] == p
      && (|p| == |s| || s[|p|] == sep)
  {
  }

  // ---------------------------------------------------------------------
  // The settings path (preload.js, lines 8-24)
  // ---------------------------------------------------------------------

  const SettingsFlag: string := "--settings-path="
  const SettingsFileName: string := "settings.json"

  predicate IsSettingsArg(arg: string) {
    |SettingsFlag| <= |arg| && arg[..|SettingsFlag|] == SettingsFlag
  }

  /** `args.find(arg => arg.startsWith('--settings-path='))`. */
  function FindSettingsArg(args: seq<string>): (r: Option<string>)
    ensures r.Some? ==> IsSettingsArg(r.value)
    decreases |args|
  {
    if args == [] then None
    else if IsSettingsArg(args[0]) then Some(args[0])
    else FindSettingsArg(args[1..])
  }

  /** `find` returns the first argument with the flag, and none when no argument has it. */
  lemma {:induction false} FindSettingsArgSpec(args: seq<string>)
    ensures FindSettingsArg(args).None? <==> forall i :: 0 <= i < |args| ==> !IsSettingsArg(args[i])
    ensures FindSettingsArg(args).Some? ==>
      exists i :: 0 <= i < |args| && args[i] == FindSettingsArg(args).value && IsSettingsArg(args[i])
        && forall j :: 0 <= j < i ==> !IsSettingsArg(args[j])
    decreases |args|
  {
    if args != [] && !IsSettingsArg(args[0]) {
      FindSettingsArgSpec(args[1..]);
      assert forall i :: 1 <= i < |args| ==> args[i] == args[1..][i - 1];
      if FindSettingsArg(args).Some? {
        var i :| 0 <= i < |args[1..]| && args[1..][i] == FindSettingsArg(args).value && IsSettingsArg(args[1..][i])
          && forall j :: 0 <= j < i ==> !IsSettingsArg(args[1..][j]);
        assert args[i + 1] == args[1..][i];
      }
    }
  }

  /** `path.join(dir, name)`, without the normalisation of `..` and repeated separators. */
  function PathJoin(dir: string, name: string): string {
    dir + "/" + name
  }

  /**
   * The settings path: the second `=`-separated piece of the first
   * `--settings-path=` argument, or `settings.json` beside the script. Both
   * branches of the development test build the same path.
   */
  function SettingsPath(argv: seq<string>, dirname: string): string {
    match FindSettingsArg(argv)
    case Some(arg) => FlagPath(arg)
    case None => PathJoin(dirname, SettingsFileName)
  }

  /** `settingsArg.split('=')[1]`. */
  function FlagPath(arg: string): string
    requires IsSettingsArg(arg)
  {
    FlagArgHasSeparator(arg);
    SecondPiece(arg, '=');
    Split(arg, '=')[1]
  }

  lemma FlagArgHasSeparator(arg: string)
    requires IsSettingsArg(arg)
    ensures '=' in arg && IndexOf(arg, '=') == |SettingsFlag| - 1
  {
    assert arg[15] == SettingsFlag[15] == '=';
    assert arg[..15] == SettingsFlag[..15];
    assert '=' !in SettingsFlag[..15];
  }

  /**
   * `p` is what follows the flag in `arg`, up to the next `=` or the end of
   * the argument.
   */
  predicate PathAfterFlag(arg: string, p: string) {
    var n := |SettingsFlag| + |p|;
    && '=' !in p && n <= |arg| && arg[..n] == SettingsFlag + p
    && (n == |arg| || arg[n] == '=')
  }

  /** For an argument with the flag, the second piece is the text after the flag up to the next `=`. */
  lemma FlagArgPath(arg: string)
    requires IsSettingsArg(arg)
    ensures PathAfterFlag(arg, FlagPath(arg))
  {
    FlagArgHasSeparator(arg);
    SecondPiece(arg, '=');
    var rest := arg[|SettingsFlag|..];
    var p := Split(rest, '=')[0];
    FirstPiece(rest, '=');
    assert FlagPath(arg) == p;
    assert arg[..|SettingsFlag| + |p|] == arg[..|SettingsFlag|] + rest[..|p|];
  }

  /**
   * With a `--settings-path=` argument, the path is the text after the flag
   * in the first such argument, up to the next `=` or the end of that
   * argument; without one it is `settings.json` in the script's directory.
   */
  lemma SettingsPathSpec(argv: seq<string>, dirname: string)
    ensures (forall i :: 0 <= i < |argv| ==> !IsSettingsArg(argv[i])) ==>
      SettingsPath(argv, dirname) == dirname + "/settings.json"
    ensures (exists i :: 0 <= i < |argv| && IsSettingsArg(argv[i])) ==>
      exists i :: 0 <= i < |argv| && IsSettingsArg(argv[i])
        && (forall j :: 0 <= j < i ==> !IsSettingsArg(argv[j]))
        && PathAfterFlag(argv[i], SettingsPath(argv, dirname))
  {
    FindSettingsArgSpec(argv);
    if FindSettingsArg(argv).Some? {
      var arg := FindSettingsArg(argv).value;
      FlagArgPath(arg);
      var i :| 0 <= i < |argv| && argv[i] == arg && IsSettingsArg(argv[i])
        && forall j :: 0 <= j < i ==> !IsSettingsArg(argv[j]);
      assert PathAfterFlag(argv[i], SettingsPath(argv, dirname));
    }
  }

  // ---------------------------------------------------------------------
  // Default settings and the overlay of a loaded file (lines 29-47, 65-91)
  // ---------------------------------------------------------------------

  /** The five module-level variables the preload script keeps. */
  datatype Settings = Settings(
    toggleKey: Json,
    uncapFPS: Json,
    adblock: Json,
    disableFullscreen: Json,
    selectedSkins: Json)

  const DefaultSkins: Json :=
    Obj([("ar", Str("ice")), ("smg", Str("ice")), ("awp", Str("matrix")), ("shotgun", Str("neon"))])

  const Defaults: Settings :=
    Settings(Str("o"), Bool(false), Bool(true), Bool(false), DefaultSkins)

  /**
   * The settings as an object with the members in the order of the default
   * object: what `JSON.stringify` writes to a new file and what the page
   * receives as its settings object.
   */
  function Document(s: Settings): Json {
    Obj([("toggleKey", s.toggleKey), ("uncapFPS", s.uncapFPS), ("adblock", s.adblock),
         ("disableFullscreen", s.disableFullscreen), ("selectedSkins", s.selectedSkins)])
  }

  /** `if (parsed && parsed.key) value = parsed.key`. */
  function TakeTruthy(parsed: Json, key: string, current: Json): Json {
    var m := Member(parsed, key);
    if Truthy(parsed) && m.Some? && Truthy(m.value) then m.value else current
  }

  /** `if (parsed && typeof parsed.key !== 'undefined') value = parsed.key`. */
  function TakeDefined(parsed: Json, key: string, current: Json): Json {
    var m := Member(parsed, key);
    if Truthy(parsed) && m.Some? then m.value else current
  }

  /**
   * The settings after the load attempt, from the settings before it and
   * the file contents; `None` is a file that could not be read or parsed,
   * which the `catch` turns into keeping every value.
   */
  function Overlay(base: Settings, file: Option<Json>): Settings {
    match file
    case None => base
    case Some(parsed) =>
      Settings(
        TakeTruthy(parsed, "toggleKey", base.toggleKey),
        TakeDefined(parsed, "uncapFPS", base.uncapFPS),
        TakeDefined(parsed, "adblock", base.adblock),
        TakeDefined(parsed, "disableFullscreen", base.disableFullscreen),
        TakeTruthy(parsed, "selectedSkins", base.selectedSkins))
  }

  /** What the preload script ends up with at start-up. */
  function Resolve(file: Option<Json>): Settings {
    Overlay(Defaults, file)
  }

  /**
   * Field by field, the overlay keeps the old value or takes the file's
   * member: the two truthy-tested fields only when that member is truthy,
   * the three others whenever the member is present. An unreadable file or
   * a falsy parsed value changes nothing.
   */
  lemma OverlaySpec(base: Settings, file: Option<Json>)
    ensures var r := Overlay(base, file);
      && (file.None? || !Truthy(file.value) ==> r == base)
      && (file.Some? && Truthy(file.value) ==>
        var p := file.value;
        && (r.toggleKey == if Member(p, "toggleKey").Some? && Truthy(Member(p, "toggleKey").value)
                           then Member(p, "toggleKey").value else base.toggleKey)
        && (r.selectedSkins == if Member(p, "selectedSkins").Some? && Truthy(Member(p, "selectedSkins").value)
                               then Member(p, "selectedSkins").value else base.selectedSkins)
        && (r.uncapFPS == if Member(p, "uncapFPS").Some? then Member(p, "uncapFPS").value else base.uncapFPS)
        && (r.adblock == if Member(p, "adblock").Some? then Member(p, "adblock").value else base.adblock)
        && (r.disableFullscreen == if Member(p, "disableFullscreen").Some?
                                   then Member(p, "disableFullscreen").value else base.disableFullscreen))
  {
  }

  /** A read or parse failure leaves every field at its default. */
  lemma FailedLoadKeepsDefaults()
    ensures Resolve(None) == Defaults
  {
  }

  /** A file without a field leaves that field at its default. */
  lemma MissingFieldsKeepDefaults(parsed: Json)
    ensures Member(parsed, "toggleKey").None? ==> Resolve(Some(parsed)).toggleKey == Str("o")
    ensures Member(parsed, "uncapFPS").None? ==> Resolve(Some(parsed)).uncapFPS == Bool(false)
    ensures Member(parsed, "adblock").None? ==> Resolve(Some(parsed)).adblock == Bool(true)
    ensures Member(parsed, "disableFullscreen").None? ==> Resolve(Some(parsed)).disableFullscreen == Bool(false)
    ensures Member(parsed, "selectedSkins").None? ==> Resolve(Some(parsed)).selectedSkins == DefaultSkins
  {
  }

  /** Loading the same file twice is the same as loading it once. */
  lemma OverlayIdempotent(base: Settings, file: Option<Json>)
    ensures Overlay(Overlay(base, file), file) == Overlay(base, file)
  {
  }

  /** The members of a settings document are the settings' five values. */
  lemma DocumentMembers(s: Settings)
    ensures Member(Document(s), "toggleKey") == Some(s.toggleKey)
    ensures Member(Document(s), "uncapFPS") == Some(s.uncapFPS)
    ensures Member(Document(s), "adblock") == Some(s.adblock)
    ensures Member(Document(s), "disableFullscreen") == Some(s.disableFullscreen)
    ensures Member(Document(s), "selectedSkins") == Some(s.selectedSkins)
  {
    var m := Document(s).members;
    assert "toggleKey"[0] == 't' && "uncapFPS"[0] == 'u' && "adblock"[0] == 'a';
    assert "disableFullscreen"[0] == 'd' && "selectedSkins"[0] == 's';
    assert forall i :: 0 <= i < |m| ==> m[i].0[0] == "tuads"[i];
    assert DistinctKeys(m);
    LookupDistinct(m, 0);
    LookupDistinct(m, 1);
    LookupDistinct(m, 2);
    LookupDistinct(m, 3);
    LookupDistinct(m, 4);
  }

  /**
   * Writing settings whose key and skin map are truthy and reading them back
   * over any settings gives exactly those settings.
   */
  lemma SaveThenLoad(base: Settings, s: Settings)
    requires Truthy(s.toggleKey) && Truthy(s.selectedSkins)
    ensures Overlay(base, Some(Document(s))) == s
  {
    DocumentMembers(s);
  }

  /** The resolved key and skin map are always truthy; the skin map is never `null`. */
  lemma ResolvedTruthy(file: Option<Json>)
    ensures Truthy(Resolve(file).toggleKey) && Truthy(Resolve(file).selectedSkins)
    ensures Resolve(file).selectedSkins != Null
  {
  }

  /** Resolving, saving the result and resolving the saved file gives the same settings. */
  lemma ResolveStable(file: Option<Json>)
    ensures Resolve(Some(Document(Resolve(file)))) == Resolve(file)
  {
    ResolvedTruthy(file);
    SaveThenLoad(Defaults, Resolve(file));
  }

  // ---------------------------------------------------------------------
  // The settings file (lines 49-63, 67-68, 95-105)
  // ---------------------------------------------------------------------

  /**
   * The settings file as the script sees it. JSON text is not modelled: a
   * file holds a parsed value, or text that does not parse.
   */
  datatype SettingsFile = Missing | Unparsable | Holds(doc: Json)

  /** What `readFileSync` followed by `JSON.parse` yields; None when either throws. */
  function Contents(f: SettingsFile): Option<Json> {
    match f
    case Missing => None
    case Unparsable => None
    case Holds(doc) => Some(doc)
  }

  /** A missing file resolves to the defaults, whether or not writing the default file succeeded. */
  lemma MissingFileGivesDefaults(writeOk: bool)
    ensures Resolve(Contents(if writeOk then Holds(Document(Defaults)) else Missing)) == Defaults
  {
    if writeOk {
      SaveThenLoad(Defaults, Defaults);
    }
  }

  /** The preload script's settings state, with the file it reads and writes. */
  class Preload {
    var settingsPath: string
    var toggleKey: Json
    var uncapFPS: Json
    var adblock: Json
    var disableFullscreen: Json
    var selectedSkins: Json
    /** The file at `settingsPath`. */
    var file: SettingsFile

    function Current(): Settings
      reads this
    {
      Settings(toggleKey, uncapFPS, adblock, disableFullscreen, selectedSkins)
    }

    /** Lines 8-47: choose the path and start from the defaults. */
    constructor(argv: seq<string>, dirname: string, disk: SettingsFile)
      ensures settingsPath == SettingsPath(argv, dirname)
      ensures Current() == Defaults
      ensures file == disk
    {
      settingsPath := SettingsPath(argv, dirname);
      var d := Defaults;
      selectedSkins := d.selectedSkins;
      toggleKey := d.toggleKey;
      uncapFPS := d.uncapFPS;
      adblock := d.adblock;
      disableFullscreen := d.disableFullscreen;
      file := disk;
    }

    /**
     * Lines 49-63: a missing file is created with the default settings;
     * `writeOk` says whether the write succeeded.
     */
    method EnsureFile(writeOk: bool)
      modifies this`file
      ensures file == if old(file).Missing? && writeOk then Holds(Document(Defaults)) else old(file)
    {
      if file.Missing? && writeOk {
        file := Holds(Document(Defaults));
      }
    }

    /** Lines 65-91: overlay the file's fields one after another. */
    method LoadSettings()
      modifies this
      ensures Current() == Overlay(old(Current()), Contents(file))
      ensures settingsPath == old(settingsPath) && file == old(file)
    {
      var contents := Contents(file);
      if contents.Some? {
        var parsed := contents.value;
        var m := Member(parsed, "selectedSkins");
        if Truthy(parsed) && m.Some? && Truthy(m.value) {
          selectedSkins := m.value;
        }
        m := Member(parsed, "toggleKey");
        if Truthy(parsed) && m.Some? && Truthy(m.value) {
          toggleKey := m.value;
        }
        m := Member(parsed, "uncapFPS");
        if Truthy(parsed) && m.Some? {
          uncapFPS := m.value;
        }
        m := Member(parsed, "adblock");
        if Truthy(parsed) && m.Some? {
          adblock := m.value;
        }
        m := Member(parsed, "disableFullscreen");
        if Truthy(parsed) && m.Some? {
          disableFullscreen := m.value;
        }
      }
    }

    /** Lines 95-105: `saveSettings` writes the object and reports whether the write succeeded. */
    method SaveSettings(settings: Json, writeOk: bool) returns (ok: bool)
      modifies this`file
      ensures ok == writeOk
      ensures file == if writeOk then Holds(settings) else old(file)
    {
      if writeOk {
        file := Holds(settings);
        ok := true;
      } else {
        ok := false;
      }
    }

    /** Lines 342-348: the settings object handed to the page. */
    function PageSettings(): (r: Json)
      reads this
      ensures Member(r, "toggleKey") == Some(toggleKey) && Member(r, "selectedSkins") == Some(selectedSkins)
    {
      DocumentMembers(Current());
      Document(Current())
    }
  }

  /**
   * The start-up sequence of lines 8-91: whatever the file, the loaded
   * settings are the resolution of what the file then holds.
   */
  method Startup(argv: seq<string>, dirname: string, disk: SettingsFile, writeOk: bool) returns (p: Preload)
    ensures fresh(p)
    ensures p.settingsPath == SettingsPath(argv, dirname)
    ensures p.Current() == Resolve(Contents(p.file))
    ensures disk.Missing? ==> p.Current() == Defaults
    ensures !disk.Missing? ==> p.file == disk
  {
    p := new Preload(argv, dirname, disk);
    p.EnsureFile(writeOk);
    p.LoadSettings();
    if disk.Missing? {
      MissingFileGivesDefaults(writeOk);
    }
  }

  /** A save followed by a restart loads back the saved settings. */
  method SaveAndRestart(argv: seq<string>, dirname: string, disk: SettingsFile, s: Settings)
    returns (loaded: Settings)
    requires Truthy(s.toggleKey) && Truthy(s.selectedSkins)
    ensures loaded == s
  {
    var p := Startup(argv, dirname, disk, true);
    var ok := p.SaveSettings(Document(s), true);
    var q := Startup(argv, dirname, p.file, true);
    SaveThenLoad(Defaults, s);
    loaded := q.Current();
  }
}
