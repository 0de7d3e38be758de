// The theme hook (src/hooks/use-theme.ts): the initial theme chosen from the
// stored preference or the system's colour scheme, `setTheme` and
// `toggleTheme`, the effect that puts the `dark` class on the document root
// and persists the theme under the storage key "theme", and the listener that
// follows system changes while no valid preference is stored.

module Theme {
  import opened Wrappers

  datatype ThemeMode = Light | Dark

  const StorageKey := "theme"

  /** The text a mode is stored and compared as. */
  function ModeText(m: ThemeMode): string
  {
    match m
    case Light => "light"
    case Dark => "dark"
  }

  /** `stored === "light" || stored === "dark"`, read as a mode; any other
      stored text, and a missing entry, is no valid mode. */
  function ModeOf(stored: Option<string>): (r: Option<ThemeMode>)
    ensures r.Some? <==> stored.Some? && (stored.value == "light" || stored.value == "dark")
  {
    if stored == Some("light") then Some(Light)
    else if stored == Some("dark") then Some(Dark)
    else None
  }

  function Lookup(storage: map<string, string>, key: string): Option<string>
  {
    if key in storage then Some(storage[key]) else None
  }

  /** The mode held in storage, if a valid one is. */
  function StoredMode(storage: map<string, string>): Option<ThemeMode>
  {
    ModeOf(Lookup(storage, StorageKey))
  }

  /** What the browser offers the hook: nothing when rendering without a
      window; otherwise its storage, whether `matchMedia` exists and what the
      dark-scheme query currently says. */
  datatype Env =
    | NoWindow
    | Browser(storage: map<string, string>, hasMatchMedia: bool, prefersDark: bool)

  /** `getSystemPrefersDark()`. */
  predicate SystemPrefersDark(env: Env)
  {
    env.Browser? && env.hasMatchMedia && env.prefersDark
  }

  /** `readInitialTheme()`. */
  function ReadInitialTheme(env: Env): ThemeMode
  {
    if env.NoWindow? then Light
    else if StoredMode(env.storage).Some? then StoredMode(env.storage).value
    else if SystemPrefersDark(env) then Dark
    else Light
  }

  /** The updater `toggleTheme` passes: dark becomes light, anything else
      dark. */
  function Toggle(prev: ThemeMode): (next: ThemeMode)
    ensures next != prev
  {
    if prev == Dark then Light else Dark
  }

  /** The mode the system listener switches to. */
  function SchemeMode(matches: bool): ThemeMode
  {
    if matches then Dark else Light
  }

  /** The hook mounted in a browser that has `matchMedia`. */
  class ThemeHook {
    var theme: ThemeMode
    /** Whether the document root's class list holds "dark". */
    var rootDark: bool
    /** The origin's local storage. */
    var storage: map<string, string>
    /** What the dark-scheme media query currently reports. */
    var prefersDark: bool

    /** The theme is applied to the root and persisted. */
    ghost predicate Persisted()
      reads this
    {
      rootDark == (theme == Dark) && StoredMode(storage) == Some(theme)
    }

    /** Mounting: the initial theme, then the persist effect runs once. */
    constructor(storage: map<string, string>, rootDark: bool, prefersDark: bool)
      ensures theme == ReadInitialTheme(Browser(storage, true, prefersDark))
      ensures this.prefersDark == prefersDark
      ensures this.storage == storage[StorageKey := ModeText(theme)]
      ensures this.rootDark == (theme == Dark)
      ensures Persisted()
    {
      theme := ReadInitialTheme(Browser(storage, true, prefersDark));
      this.prefersDark := prefersDark;
      this.storage := storage;
      this.rootDark := rootDark;
      new;
      ApplyAndPersist();
    }

    /** The effect on `[theme]`: add or remove the root's "dark" class and
        store the theme. */
    method ApplyAndPersist()
      modifies this`rootDark, this`storage
      ensures rootDark == (theme == Dark)
      ensures storage == old(storage)[StorageKey := ModeText(theme)]
      ensures Persisted()
    {
      if theme == Dark {
        rootDark := true;
      } else {
        rootDark := false;
      }
      storage := storage[StorageKey := ModeText(theme)];
    }

    /** `setThemeState(m)` followed by the render it causes: the effect runs
        only when the theme actually changed. */
    method SetThemeState(m: ThemeMode)
      modifies this`theme, this`rootDark, this`storage
      ensures theme == m
      ensures m != old(theme) ==> rootDark == (m == Dark) && storage == old(storage)[StorageKey := ModeText(m)]
      ensures m == old(theme) ==> rootDark == old(rootDark) && storage == old(storage)
      ensures old(Persisted()) ==> Persisted()
    {
      if m != theme {
        theme := m;
        ApplyAndPersist();
      }
    }

    /** `setTheme(mode)`. */
    method SetTheme(mode: ThemeMode)
      modifies this`theme, this`rootDark, this`storage
      ensures theme == mode
      ensures mode != old(theme) ==> Persisted() && storage == old(storage)[StorageKey := ModeText(mode)]
      ensures mode == old(theme) ==> rootDark == old(rootDark) && storage == old(storage)
      ensures old(Persisted()) ==> Persisted()
    {
      SetThemeState(mode);
    }

    /** `toggleTheme()`. */
    method ToggleTheme()
      modifies this`theme, this`rootDark, this`storage
      ensures theme == Toggle(old(theme))
      ensures Persisted() && storage == old(storage)[StorageKey := ModeText(theme)]
    {
      SetThemeState(Toggle(theme));
    }

    /** Another party (a second tab, a "clear data" action) rewrites local
        storage. */
    method StorageReplaced(newStorage: map<string, string>)
      modifies this`storage
      ensures storage == newStorage
    {
      storage := newStorage;
    }

    /** The media query's "change" event: the theme follows the system only
        while storage holds no valid mode. */
    method SystemChanged(matches: bool)
      modifies this`prefersDark, this`theme, this`rootDark, this`storage
      ensures prefersDark == matches
      ensures StoredMode(old(storage)).Some? ==>
        theme == old(theme) && rootDark == old(rootDark) && storage == old(storage)
      ensures StoredMode(old(storage)).None? ==> theme == SchemeMode(matches)
      ensures StoredMode(old(storage)).None? && theme != old(theme) ==> Persisted()
      ensures old(Persisted()) ==> theme == old(theme) && Persisted()
      ensures theme == old(theme) ==> rootDark == old(rootDark)
      ensures (storage, theme) == SystemStep(old(storage), old(theme), matches)
    {
      prefersDark := matches;
      var stored := Lookup(storage, StorageKey);
      if stored != Some("light") && stored != Some("dark") {
        SetThemeState(if matches then Dark else Light);
      }
    }
  }

  // ---------------------------------------------------------------------------
  // Properties

  /** Storing a mode and reading it back gives the mode. */
  lemma StoredModeRoundTrip(storage: map<string, string>, m: ThemeMode)
    ensures StoredMode(storage[StorageKey := ModeText(m)]) == Some(m)
  {
  }

  /** The initial theme: light without a window, a valid stored mode
      otherwise, and failing that dark exactly when `matchMedia` exists and
      reports a dark preference. */
  lemma InitialThemeRules(env: Env)
    ensures env.NoWindow? ==> ReadInitialTheme(env) == Light
    ensures env.Browser? && StoredMode(env.storage).Some? ==> ReadInitialTheme(env) == StoredMode(env.storage).value
    ensures env.Browser? && StoredMode(env.storage).None? ==>
      (ReadInitialTheme(env) == Dark <==> env.hasMatchMedia && env.prefersDark)
  {
  }

  /** A stored text other than "light" or "dark" ("Dark", "system") is
      ignored in favour of the system preference. */
  lemma InvalidStoredTextIgnored(prefersDark: bool)
    ensures ReadInitialTheme(Browser(map[StorageKey := "Dark"], true, prefersDark)) == SchemeMode(prefersDark)
    ensures ReadInitialTheme(Browser(map[StorageKey := "dark"], true, false)) == Dark
  {
    assert "Dark" != "dark" by {
      assert "Dark"[0] != "dark"[0];
    }
    assert "Dark" != "light";
  }

  /** Two toggles restore the theme; `Toggle` is its own inverse. */
  lemma ToggleInvolution(m: ThemeMode)
    ensures Toggle(Toggle(m)) == m
  {
  }

  /** Storage and theme after one "change" event: the theme follows the
      system only without a stored mode, and a new theme is persisted. */
  function SystemStep(storage: map<string, string>, theme: ThemeMode, matches: bool): (map<string, string>, ThemeMode)
  {
    var next := if StoredMode(storage).None? then SchemeMode(matches) else theme;
    (if next != theme then storage[StorageKey := ModeText(next)] else storage, next)
  }

  /** The theme after a sequence of system changes, with storage left alone
      by every other party: `SystemStep`, which each `SystemChanged` call
      performs, applied event by event. */
  function Replay(storage: map<string, string>, changes: seq<bool>, theme: ThemeMode): ThemeMode
    decreases |changes|
  {
    if changes == [] then theme
    else
      var step := SystemStep(storage, theme, changes[0]);
      Replay(step.0, changes[1..], step.1)
  }

  /** Once the theme is persisted, a sequence of system changes leaves the
      theme where it was. */
  lemma {:induction false} SystemChangesIgnoredOncePersisted(storage: map<string, string>, changes: seq<bool>, theme: ThemeMode)
    requires StoredMode(storage) == Some(theme)
    ensures Replay(storage, changes, theme) == theme
  {
    if changes != [] {
      SystemChangesIgnoredOncePersisted(storage, changes[1..], theme);
    }
  }

  /** Without a stored mode, only the first system change that moves the
      theme can change it; from then on it is persisted and pinned. */
  lemma FirstChangePins(storage: map<string, string>, matches: bool, rest: seq<bool>, theme: ThemeMode)
    requires StoredMode(storage).None? && SchemeMode(matches) != theme
    ensures Replay(storage, [matches] + rest, theme) == SchemeMode(matches)
  {
    var next := SchemeMode(matches);
    assert ([matches] + rest)[1..] == rest;
    StoredModeRoundTrip(storage, next);
    SystemChangesIgnoredOncePersisted(storage[StorageKey := ModeText(next)], rest, next);
  }
}
