/**
 * The exports example of the TypeScript refresher: `greet`, the `@`-only `validateEmail`, and
 * the default-exported `ThemeManager`, which accepts only the themes of `THEMES`.
 */
module ExportsExample {
  import JsString

  /** `greet(name)`, "Hello, <name>!" */
  function Greet(name: string): (r: string)
    ensures |r| == |name| + 8
    ensures r[..7] == "Hello, " && r[|r| - 1] == '!'
    ensures r[7..|r| - 1] == name
  {
    "Hello, " + name + "!"
  }

  /** Different names give different greetings. */
  lemma GreetInjective(a: string, b: string)
    requires Greet(a) == Greet(b)
    ensures a == b
  {
    assert a == Greet(a)[7..|Greet(a)| - 1];
  }

  /** `email.includes("@")` */
  function ValidateEmail(email: string): (r: bool)
    ensures r <==> '@' in email
  {
    JsString.IncludesChar(email, '@');
    JsString.Includes(email, "@")
  }

  const DefaultTheme := "light"
  const Themes: seq<string> := ["light", "dark", "auto"]

  class ThemeManager {
    var currentTheme: string

    /** The theme is always one of `THEMES`. */
    predicate Valid()
      reads this
    {
      currentTheme in Themes
    }

    /** A new manager starts at `DEFAULT_THEME`. */
    constructor()
      ensures currentTheme == "light" && Valid()
    {
      currentTheme := DefaultTheme;
    }

    /** `setTheme`: a theme outside `THEMES` is ignored. */
    method SetTheme(theme: string)
      requires Valid()
      modifies this
      ensures Valid()
      ensures theme in Themes ==> currentTheme == theme
      ensures theme !in Themes ==> currentTheme == old(currentTheme)
    {
      if theme in Themes {
        currentTheme := theme;
      }
    }

    /** `getTheme` */
    method GetTheme() returns (r: string)
      requires Valid()
      ensures r == currentTheme && r in Themes
    {
      r := currentTheme;
    }
  }

  /** A theme call sequence: "dark" is taken, an unknown theme is ignored, so "dark" stays. */
  method ThemeDemo(unknown: string) returns (theme: string)
    requires unknown !in Themes
    ensures theme == "dark"
  {
    var manager := new ThemeManager();
    manager.SetTheme("dark");
    manager.SetTheme(unknown);
    theme := manager.GetTheme();
  }
}
