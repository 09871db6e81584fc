/** The theme provider: the current theme, its three-step toggle, the initial
    choice from storage, and the effect that puts the theme on the document
    element's class list and back into storage. The stored value is read
    without any check, so a theme is any string here. */
module ThemeContext {
  import opened Common

  /** The three class names the effect removes before adding the current one. */
  const ThemeNames: set<string> := {"light", "dark", "grey"}

  /** The key the theme is stored under. */
  const StorageKey: string := "theme"

  /** `toggleTheme`'s update: light to dark, dark to grey, anything else to
      light. */
  function Toggle(prev: string): (next: string)
    ensures next in ThemeNames
    ensures prev == "light" <==> next == "dark"
    ensures prev == "dark" <==> next == "grey"
    ensures prev != "light" && prev != "dark" <==> next == "light"
  {
    if prev == "light" then "dark" else if prev == "dark" then "grey" else "light"
  }

  /** Light, dark, grey, light: three toggles bring every theme back. */
  lemma {:induction false} ToggleCycle(t: string)
    requires t in ThemeNames
    ensures Toggle(Toggle(Toggle(t))) == t
    ensures Toggle(t) != t
  {
  }

  /** The initial state: the stored string when there is a window and the
      stored value is non-empty, "light" otherwise. */
  function InitialTheme(hasWindow: bool, storage: map<string, string>): (t: string)
    ensures !hasWindow || StorageKey !in storage || storage[StorageKey] == "" ==> t == "light"
    ensures hasWindow && StorageKey in storage && storage[StorageKey] != "" ==> t == storage[StorageKey]
  {
    if hasWindow && StorageKey in storage && storage[StorageKey] != "" then storage[StorageKey] else "light"
  }

  /** A name `classList.add` accepts: not empty and without ASCII
      whitespace. */
  predicate ValidToken(t: string) {
    t != "" && forall i :: 0 <= i < |t| ==> t[i] !in {' ', '\t', '\n', '\U{C}', '\r'}
  }

  /** No class name occurs twice, as in any `DOMTokenList`. */
  predicate NoDuplicates(cs: seq<string>) {
    forall i, j :: 0 <= i < j < |cs| ==> cs[i] != cs[j]
  }

  /** `classList.remove("light", "dark", "grey")`. */
  function WithoutThemes(cs: seq<string>): seq<string> {
    if cs == [] then []
    else (if cs[0] in ThemeNames then [] else [cs[0]]) + WithoutThemes(cs[1..])
  }

  /** Removing the theme names keeps every other name, in order, and keeps
      the names distinct. */
  lemma {:induction false} WithoutThemesKeepsOthers(cs: seq<string>)
    ensures forall x :: x in WithoutThemes(cs) <==> x in cs && x !in ThemeNames
    ensures NoDuplicates(cs) ==> NoDuplicates(WithoutThemes(cs))
    decreases |cs|
  {
    if cs != [] {
      WithoutThemesKeepsOthers(cs[1..]);
      if NoDuplicates(cs) {
        assert NoDuplicates(cs[1..]) by {
          forall i, j | 0 <= i < j < |cs[1..]| ensures cs[1..][i] != cs[1..][j] {
            assert cs[1..][i] == cs[i + 1] && cs[1..][j] == cs[j + 1];
          }
        }
        assert cs[0] !in cs[1..] by {
          forall k | 0 <= k < |cs[1..]| ensures cs[1..][k] != cs[0] {
            assert cs[1..][k] == cs[k + 1];
          }
        }
      }
    }
  }

  /** `classList.add(t)`: appended unless already present. */
  function AddClass(cs: seq<string>, t: string): seq<string> {
    if t in cs then cs else cs + [t]
  }

  /** The class list after the effect has run for theme `t`. */
  function ClassesAfter(cs: seq<string>, t: string): seq<string> {
    AddClass(WithoutThemes(cs), t)
  }

  /** After the effect, the current theme is on the class list and it is the
      only one of the three theme names there; every other name is there
      exactly when it was before, and no name occurs twice. */
  lemma {:induction false} ClassesAfterEffect(cs: seq<string>, t: string)
    requires NoDuplicates(cs)
    ensures var after := ClassesAfter(cs, t);
      && t in after
      && (forall x :: x in ThemeNames ==> (x in after <==> x == t))
      && (forall x :: x !in ThemeNames && x != t ==> (x in after <==> x in cs))
      && NoDuplicates(after)
  {
    WithoutThemesKeepsOthers(cs);
    var w := WithoutThemes(cs);
    if t !in w {
      var after := w + [t];
      forall i, j | 0 <= i < j < |after| ensures after[i] != after[j] {
        if j == |w| {
          assert after[i] == w[i];
        }
      }
    }
  }

  /** Running the effect a second time for the same theme changes nothing. */
  lemma {:induction false} ClassesAfterIdempotent(cs: seq<string>, t: string)
    ensures ClassesAfter(ClassesAfter(cs, t), t) == ClassesAfter(cs, t)
  {
    var w := WithoutThemes(cs);
    var after := AddClass(w, t);
    WithoutThemesKeepsOthers(cs);
    WithoutThemesNoThemes(w);
    if t in ThemeNames {
      assert after == w + [t];
      WithoutThemesSnoc(w, t);
    } else {
      assert forall x :: x in after ==> x !in ThemeNames;
      WithoutThemesNoThemes(after);
    }
  }

  lemma {:induction false} WithoutThemesNoThemes(cs: seq<string>)
    requires forall x :: x in cs ==> x !in ThemeNames
    ensures WithoutThemes(cs) == cs
    decreases |cs|
  {
    if cs != [] {
      WithoutThemesNoThemes(cs[1..]);
    }
  }

  lemma {:induction false} WithoutThemesSnoc(cs: seq<string>, t: string)
    ensures WithoutThemes(cs + [t]) == WithoutThemes(cs) + (if t in ThemeNames then [] else [t])
    decreases |cs|
  {
    if cs == [] {
      assert cs + [t] == [t];
    } else {
      assert (cs + [t])[0] == cs[0] && (cs + [t])[1..] == cs[1..] + [t];
      WithoutThemesSnoc(cs[1..], t);
    }
  }

  /** The provider's state: the current theme, the document element's class
      list and the browser's storage. */
  class ThemeProvider {
    var theme: string
    var classList: seq<string>
    var storage: map<string, string>

    constructor (hasWindow: bool, initialStorage: map<string, string>, initialClasses: seq<string>)
      ensures theme == InitialTheme(hasWindow, initialStorage)
      ensures storage == initialStorage && classList == initialClasses
    {
      theme := InitialTheme(hasWindow, initialStorage);
      storage := initialStorage;
      classList := initialClasses;
    }

    /** `toggleTheme`. */
    method ToggleTheme()
      modifies this
      ensures theme == Toggle(old(theme))
      ensures classList == old(classList) && storage == old(storage)
    {
      theme := Toggle(theme);
    }

    /** The effect: remove the three theme names, add the current theme,
        store it. `classList.add` throws on a name that is empty or holds
        whitespace, after the removal and before the store. */
    method ApplyTheme() returns (ok: bool)
      modifies this
      ensures ok == ValidToken(theme) && theme == old(theme)
      ensures classList == if ok then ClassesAfter(old(classList), theme) else WithoutThemes(old(classList))
      ensures storage == if ok then old(storage)[StorageKey := theme] else old(storage)
    {
      classList := WithoutThemes(classList);
      if !ValidToken(theme) {
        return false;
      }
      classList := AddClass(classList, theme);
      storage := storage[StorageKey := theme];
      ok := true;
    }
  }

  /** Each theme the toggle yields is a valid class name, so after a toggle
      the effect always completes, and the theme it stores is the one a
      reload starts from. */
  lemma {:induction false} ToggledThemesApply(prev: string, storage: map<string, string>)
    ensures ValidToken(Toggle(prev))
    ensures InitialTheme(true, storage[StorageKey := Toggle(prev)]) == Toggle(prev)
  {
    var t := Toggle(prev);
    assert t == "light" || t == "dark" || t == "grey";
  }
}
