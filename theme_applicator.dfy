/** Applying a user's display preferences to the class list of the document root: the dark
    class, one font-size class and one theme class. */
module ThemeApplicator {
  import opened Wrappers

  /** The stored preferences; every field may be missing. */
  datatype UserPreferences = UserPreferences(darkMode: Option<bool>, fontSize: Option<string>, theme: Option<string>)

  /** `prefs?.darkMode`. */
  function DarkMode(prefs: Option<UserPreferences>): Option<bool>
  {
    if prefs.Some? then prefs.value.darkMode else None
  }

  /** The font-size class to add: `font-size-<size>` for a size that is given, not empty and
      not "default". */
  function FontClass(prefs: Option<UserPreferences>): (r: Option<string>)
    ensures r.Some? <==> prefs.Some? && prefs.value.fontSize.Some? && prefs.value.fontSize.value != "" && prefs.value.fontSize.value != "default"
    ensures r.Some? ==> r.value == "font-size-" + prefs.value.fontSize.value
  {
    if prefs.Some? && prefs.value.fontSize.Some? && prefs.value.fontSize.value != "" && prefs.value.fontSize.value != "default"
    then Some("font-size-" + prefs.value.fontSize.value)
    else None
  }

  /** The theme class to add: `theme-<theme>` for a theme that is given and not empty,
      otherwise "theme-default". */
  function ThemeClass(prefs: Option<UserPreferences>): (r: string)
    ensures prefs.Some? && prefs.value.theme.Some? && prefs.value.theme.value != "" ==> r == "theme-" + prefs.value.theme.value
    ensures prefs.None? || prefs.value.theme.None? || prefs.value.theme.value == "" ==> r == "theme-default"
  {
    if prefs.Some? && prefs.value.theme.Some? && prefs.value.theme.value != "" then "theme-" + prefs.value.theme.value
    else "theme-default"
  }

  const FontSizeClasses: set<string> := {"font-size-sm", "font-size-lg"}

  /** The theme classes removed before the preferred one is added. */
  const Themes: seq<string> := ["theme-default", "theme-ocean", "theme-forest", "theme-rose"]

  /** The classes the update manages. */
  function Managed(): set<string>
  {
    {"dark"} + FontSizeClasses + set t | t in Themes
  }

  /** The class list after the update: "dark" added, removed or left as it was; the two size
      classes removed and the preferred one added; the four theme classes removed and the
      preferred one added. */
  function Applied(classes: set<string>, prefs: Option<UserPreferences>): set<string>
  {
    var dark := match DarkMode(prefs)
      case Some(true) => classes + {"dark"}
      case Some(false) => classes - {"dark"}
      case None => classes;
    var sized := (dark - FontSizeClasses) + (match FontClass(prefs) case Some(c) => {c} case None => {});
    (sized - set t | t in Themes) + {ThemeClass(prefs)}
  }

  /** Neither added class is "dark", and the theme class is no font-size class. */
  lemma AddedClassesDistinct(prefs: Option<UserPreferences>)
    ensures ThemeClass(prefs) != "dark" && ThemeClass(prefs) !in FontSizeClasses
    ensures FontClass(prefs).Some? ==> FontClass(prefs).value != "dark" && FontClass(prefs).value !in Themes
    ensures FontClass(prefs).Some? ==> FontClass(prefs).value != ThemeClass(prefs)
  {
    assert ThemeClass(prefs)[0] == 't';
    if FontClass(prefs).Some? {
      var f := FontClass(prefs).value;
      assert f[0] == 'f';
      assert forall i :: 0 <= i < |Themes| ==> Themes[i][0] == 't';
    }
  }

  /** "dark" is there after an update with dark mode on, gone after one with dark mode off,
      and as it was when dark mode is not set. */
  lemma AppliedDark(classes: set<string>, prefs: Option<UserPreferences>)
    ensures DarkMode(prefs) == Some(true) ==> "dark" in Applied(classes, prefs)
    ensures DarkMode(prefs) == Some(false) ==> "dark" !in Applied(classes, prefs)
    ensures DarkMode(prefs).None? ==> ("dark" in Applied(classes, prefs) <==> "dark" in classes)
  {
    AddedClassesDistinct(prefs);
    assert "dark" !in FontSizeClasses && "dark" !in Themes;
  }

  /** Afterwards a size class is there exactly when the preferred size names it; an absent,
      empty or "default" size leaves no class starting with "font-size-" that was not there. */
  lemma AppliedFontSize(classes: set<string>, prefs: Option<UserPreferences>)
    ensures "font-size-sm" in Applied(classes, prefs) <==> FontClass(prefs) == Some("font-size-sm")
    ensures "font-size-lg" in Applied(classes, prefs) <==> FontClass(prefs) == Some("font-size-lg")
    ensures FontClass(prefs).None? ==> forall c :: c in Applied(classes, prefs) && c !in classes ==> c == "dark" || c == ThemeClass(prefs)
  {
    AddedClassesDistinct(prefs);
  }

  /** Afterwards the preferred theme class is there and no other of the four. */
  lemma AppliedTheme(classes: set<string>, prefs: Option<UserPreferences>)
    ensures ThemeClass(prefs) in Applied(classes, prefs)
    ensures forall t :: t in Themes && t in Applied(classes, prefs) ==> t == ThemeClass(prefs)
  {
  }

  /** Every class the update does not manage is there afterwards exactly when it was before or
      is the added size or theme class. */
  lemma AppliedKeepsOthers(classes: set<string>, prefs: Option<UserPreferences>)
    ensures forall c :: c !in Managed() && c != ThemeClass(prefs) && FontClass(prefs) != Some(c) ==>
      (c in Applied(classes, prefs) <==> c in classes)
  {
  }

  /** Applying the same preferences twice gives the class list of applying them once. */
  lemma AppliedIdempotent(classes: set<string>, prefs: Option<UserPreferences>)
    ensures Applied(Applied(classes, prefs), prefs) == Applied(classes, prefs)
  {
    AddedClassesDistinct(prefs);
    var once := Applied(classes, prefs);
    var twice := Applied(once, prefs);
    forall c ensures c in twice <==> c in once {
      AppliedDark(classes, prefs);
      AppliedDark(once, prefs);
    }
  }

  /** The document root, whose class list the effect changes in place. */
  class DocumentRoot {
    var classList: set<string>

    constructor (classes: set<string>)
      ensures classList == classes
    {
      classList := classes;
    }

    /** The effect of the theme applicator for the signed-in user's preferences (`None` when
        there are none). */
    method ApplyPreferences(prefs: Option<UserPreferences>)
      modifies this
      ensures classList == Applied(old(classList), prefs)
    {
      match DarkMode(prefs) {
        case Some(true) => classList := classList + {"dark"};
        case Some(false) => classList := classList - {"dark"};
        case None =>
      }
      classList := classList - {"font-size-sm", "font-size-lg"};
      if FontClass(prefs).Some? {
        classList := classList + {FontClass(prefs).value};
      }
      ghost var sized := classList;
      for i := 0 to |Themes|
        invariant classList == sized - set t | t in Themes[..i]
      {
        assert Themes[..i + 1] == Themes[..i] + [Themes[i]];
        classList := classList - {Themes[i]};
      }
      assert Themes[..|Themes|] == Themes;
      classList := classList + {ThemeClass(prefs)};
    }
  }
}
