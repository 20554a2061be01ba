/**
 * The status generator of emoji-status.js: a read-only catalog of themes,
 * a random pick from one list, and the assembly of one status line.
 *
 * Math.random() is not called here: each draw is passed in as a `Fraction`,
 * a real number in [0, 1), so generation is a total function of the theme
 * name and its three draws.
 */
module StatusGenerator {
  import opened Wrappers

  /** One theme: three ordered lists (repetitions allowed) of symbols and words. */
  datatype Theme = Theme(emojis: seq<string>, prefixes: seq<string>, suffixes: seq<string>)

  /**
   * A catalog keeps its themes in definition order. Object.keys keeps that
   * order for keys that are not integer-like (integer-like keys come first,
   * in ascending order); none of the catalog's names is integer-like.
   */
  type Catalog = seq<(string, Theme)>

  const WorkMood: Theme := Theme(
    ["💻", "📊", "📈", "☕", "📱", "📗", "🎯", "⏰", "📅", "✍️", "💡", "🔍"],
    ["In a meeting", "Coding", "Debugging", "Planning", "Learning", "Focusing"],
    ["mode", "grind", "sprint", "session", "time"])

  const WeekendVibes: Theme := Theme(
    ["🎮", "🎉", "🌴", "🏖️", "🎨", "🎭", "🎪", "🎠", "🎡", "🎢", "🎪", "🎭"],
    ["Chilling", "Relaxing", "Vibing", "Living", "Enjoying", "Exploring"],
    ["mood", "life", "moments", "times", "adventures"])

  const FoodMood: Theme := Theme(
    ["🍕", "🍔", "🌮", "🍜", "🍣", "🍙", "🍪", "🍩", "🍰", "☕", "🍵", "🧋"],
    ["Hungry", "Eating", "Cooking", "Craving", "Snacking", "Feasting"],
    ["time", "mode", "break", "adventure", "session"])

  /** The catalog compiled into the program. */
  const Themes: Catalog := [("work_mood", WorkMood), ("weekend_vibes", WeekendVibes), ("food_mood", FoodMood)]

  /** The theme used when generateStatus is called without an argument. */
  const DefaultTheme: string := "work_mood"

  /** The one error generateStatus raises; its message text is `Message`. */
  datatype Error = ThemeNotFound

  function Message(e: Error): (m: string)
    ensures m == "Theme not found"
  {
    match e
    case ThemeNotFound => "Theme not found"
  }

  /** A value Math.random() can return. */
  type Fraction = r: real | 0.0 <= r < 1.0 witness 0.0

  /** The three independent draws of one generateStatus call. */
  datatype Draws = Draws(emoji: Fraction, prefix: Fraction, suffix: Fraction)

  predicate NonEmptyLists(t: Theme)
  {
    |t.emojis| > 0 && |t.prefixes| > 0 && |t.suffixes| > 0
  }

  predicate DistinctKeys(c: Catalog)
  {
    forall i, j :: 0 <= i < j < |c| ==> c[i].0 != c[j].0
  }

  /** What the generator relies on: unique names, and no theme with an empty list. */
  predicate ValidCatalog(c: Catalog)
  {
    DistinctKeys(c) && forall i :: 0 <= i < |c| ==> NonEmptyLists(c[i].1)
  }

  // ---------------------------------------------------------------------------
  // Catalog keys and lookup

  /** listThemes: the catalog's names, in definition order. */
  function ListThemes(c: Catalog): (r: seq<string>)
    ensures |r| == |c|
    ensures forall i :: 0 <= i < |c| ==> r[i] == c[i].0
  {
    if c == [] then [] else [c[0].0] + ListThemes(c[1..])
  }

  /** The lookup `this.themes[theme]`: exact, case-sensitive match of the name. */
  function Lookup(c: Catalog, name: string): (r: Option<Theme>)
    ensures r.None? <==> name !in ListThemes(c)
    ensures r.Some? ==> (name, r.value) in c
  {
    if c == [] then None
    else if c[0].0 == name then Some(c[0].1)
    else
      var r := Lookup(c[1..], name);
      assert ListThemes(c) == [c[0].0] + ListThemes(c[1..]);
      r
  }

  /** With unique names, looking up an entry's name finds that entry's theme. */
  lemma {:induction false} LookupFindsEntry(c: Catalog, i: nat)
    requires DistinctKeys(c)
    requires i < |c|
    ensures Lookup(c, c[i].0) == Some(c[i].1)
  {
    if i > 0 {
      assert c[0].0 != c[i].0;
      assert DistinctKeys(c[1..]) by {
        forall a, b | 0 <= a < b < |c[1..]| ensures c[1..][a].0 != c[1..][b].0 {
          assert c[1..][a] == c[a + 1] && c[1..][b] == c[b + 1];
        }
      }
      assert c[1..][i - 1] == c[i];
      LookupFindsEntry(c[1..], i - 1);
    }
  }

  /** With unique names, listThemes has no repeated element. */
  lemma ListThemesDistinct(c: Catalog)
    requires DistinctKeys(c)
    ensures forall i, j :: 0 <= i < j < |ListThemes(c)| ==> ListThemes(c)[i] != ListThemes(c)[j]
  {
  }

  // ---------------------------------------------------------------------------
  // getRandomElement

  /** The index `Math.floor(r * len)`, computed exactly. */
  function RandomIndex(r: Fraction, len: nat): (i: nat)
    requires len > 0
    ensures i < len
  {
    ScaledBelow(r, len);
    (r * len as real).Floor
  }

  /** 0 <= r * len < len for a draw r in [0, 1). */
  lemma ScaledBelow(r: Fraction, len: nat)
    requires len > 0
    ensures 0.0 <= r * len as real < len as real
  {
    var n := len as real;
    assert (1.0 - r) * n > 0.0;
    assert r * n >= 0.0;
  }

  /** A draw that makes RandomIndex choose index i: every index can be chosen. */
  function DrawFor(i: nat, len: nat): (r: Fraction)
    requires i < len
    ensures RandomIndex(r, len) == i
  {
    var r: real := i as real / len as real;
    assert r * len as real == i as real;
    r
  }

  /** getRandomElement on a non-empty list. */
  function GetRandomElement<T>(xs: seq<T>, r: Fraction): (x: T)
    requires |xs| > 0
    ensures x in xs
  {
    xs[RandomIndex(r, |xs|)]
  }

  /** Every element of a non-empty list is the result of some draw. */
  lemma GetRandomElementReaches<T>(xs: seq<T>, x: T)
    requires x in xs
    ensures exists r: Fraction :: GetRandomElement(xs, r) == x
  {
    var i :| 0 <= i < |xs| && xs[i] == x;
    var r := DrawFor(i, |xs|);
    assert GetRandomElement(xs, r) == x;
  }

  // ---------------------------------------------------------------------------
  // generateStatus

  /**
   * The template `${emoji} ${prefix} ${suffix} ${emoji}`: the emoji and a space
   * open the status, a space and the same emoji close it, and the three parts
   * are separated by single spaces.
   */
  function Format(emoji: string, prefix: string, suffix: string): (s: string)
    ensures |s| == 2 * |emoji| + |prefix| + |suffix| + 3
    ensures s[..|emoji| + 1] == emoji + " "
    ensures s[|s| - |emoji| - 1..] == " " + emoji
  {
    emoji + " " + prefix + " " + suffix + " " + emoji
  }

  /** The status made from the chosen indices of one theme. */
  function StatusAt(t: Theme, i: nat, j: nat, k: nat): string
    requires i < |t.emojis| && j < |t.prefixes| && k < |t.suffixes|
  {
    Format(t.emojis[i], t.prefixes[j], t.suffixes[k])
  }

  /** s is one of the statuses theme t can produce. */
  ghost predicate IsStatusOf(t: Theme, s: string)
  {
    exists i: nat, j: nat, k: nat ::
      i < |t.emojis| && j < |t.prefixes| && k < |t.suffixes| && s == StatusAt(t, i, j, k)
  }

  /**
   * generateStatus(theme = 'work_mood'): fails with 'Theme not found' exactly
   * when the name is not a catalog key.
   */
  function GenerateStatus(c: Catalog, d: Draws, theme: string := DefaultTheme): (r: Result<string, Error>)
    requires ValidCatalog(c)
    ensures r.Err? <==> theme !in ListThemes(c)
    ensures r.Err? ==> r.error == ThemeNotFound
  {
    match Lookup(c, theme)
    case None => Err(ThemeNotFound)
    case Some(t) =>
      var emoji := GetRandomElement(t.emojis, d.emoji);
      var prefix := GetRandomElement(t.prefixes, d.prefix);
      var suffix := GetRandomElement(t.suffixes, d.suffix);
      Ok(Format(emoji, prefix, suffix))
  }

  /** The theme found under a catalog key has three non-empty lists. */
  lemma KeyedThemeNonEmpty(c: Catalog, theme: string)
    requires ValidCatalog(c)
    requires theme in ListThemes(c)
    ensures Lookup(c, theme).Some? && NonEmptyLists(Lookup(c, theme).value)
  {
    var i :| 0 <= i < |c| && c[i] == (theme, Lookup(c, theme).value);
  }

  /**
   * For a known theme, the status is exactly the template filled with the
   * elements at the three drawn indices; one emoji draw gives both ends.
   */
  lemma GenerateStatusExact(c: Catalog, d: Draws, theme: string)
    requires ValidCatalog(c)
    requires theme in ListThemes(c)
    ensures var t := Lookup(c, theme).value;
      NonEmptyLists(t) &&
      GenerateStatus(c, d, theme) == Ok(StatusAt(t,
        RandomIndex(d.emoji, |t.emojis|),
        RandomIndex(d.prefix, |t.prefixes|),
        RandomIndex(d.suffix, |t.suffixes|)))
  {
    KeyedThemeNonEmpty(c, theme);
  }

  /** Every name listThemes returns generates successfully, a status of its theme. */
  lemma GenerateSound(c: Catalog, d: Draws, theme: string)
    requires ValidCatalog(c)
    requires theme in ListThemes(c)
    ensures GenerateStatus(c, d, theme).Ok?
    ensures IsStatusOf(Lookup(c, theme).value, GenerateStatus(c, d, theme).value)
  {
    GenerateStatusExact(c, d, theme);
    var t := Lookup(c, theme).value;
    var i, j, k := RandomIndex(d.emoji, |t.emojis|), RandomIndex(d.prefix, |t.prefixes|), RandomIndex(d.suffix, |t.suffixes|);
    assert GenerateStatus(c, d, theme).value == StatusAt(t, i, j, k);
  }

  /** Every status a known theme can produce comes out of some three draws. */
  lemma GenerateComplete(c: Catalog, theme: string, s: string)
    requires ValidCatalog(c)
    requires theme in ListThemes(c)
    requires IsStatusOf(Lookup(c, theme).value, s)
    ensures exists d: Draws :: GenerateStatus(c, d, theme) == Ok(s)
  {
    var t := Lookup(c, theme).value;
    var i: nat, j: nat, k: nat :|
      i < |t.emojis| && j < |t.prefixes| && k < |t.suffixes| && s == StatusAt(t, i, j, k);
    var d := Draws(DrawFor(i, |t.emojis|), DrawFor(j, |t.prefixes|), DrawFor(k, |t.suffixes|));
    GenerateStatusExact(c, d, theme);
    assert RandomIndex(d.emoji, |t.emojis|) == i;
    assert RandomIndex(d.prefix, |t.prefixes|) == j;
    assert RandomIndex(d.suffix, |t.suffixes|) == k;
    assert GenerateStatus(c, d, theme) == Ok(s);
  }

  /** The outputs of a known theme are exactly its statuses. */
  lemma GenerateOutcomes(c: Catalog, theme: string, s: string)
    requires ValidCatalog(c)
    requires theme in ListThemes(c)
    ensures (exists d: Draws :: GenerateStatus(c, d, theme) == Ok(s)) <==> IsStatusOf(Lookup(c, theme).value, s)
  {
    if exists d: Draws :: GenerateStatus(c, d, theme) == Ok(s) {
      var d: Draws :| GenerateStatus(c, d, theme) == Ok(s);
      GenerateSound(c, d, theme);
    }
    if IsStatusOf(Lookup(c, theme).value, s) {
      GenerateComplete(c, theme, s);
    }
  }

  // ---------------------------------------------------------------------------
  // The same symbol at both ends

  /** The text before the first space. */
  function FirstToken(s: string): string
  {
    if s == [] || s[0] == ' ' then [] else [s[0]] + FirstToken(s[1..])
  }

  /** The text after the last space. */
  function LastToken(s: string): string
  {
    if s == [] || s[|s| - 1] == ' ' then [] else LastToken(s[..|s| - 1]) + [s[|s| - 1]]
  }

  /** The first token of a + " " + rest is a, for a space-free a. */
  lemma {:induction false} FirstTokenOfPrefix(a: string, rest: string)
    requires ' ' !in a
    ensures FirstToken(a + " " + rest) == a
  {
    var s := a + " " + rest;
    if a == [] {
      assert s[0] == ' ';
    } else {
      assert s[0] == a[0];
      assert s[1..] == a[1..] + " " + rest;
      FirstTokenOfPrefix(a[1..], rest);
    }
  }

  /** The last token of rest + " " + a is a, for a space-free a. */
  lemma {:induction false} LastTokenOfSuffix(rest: string, a: string)
    requires ' ' !in a
    ensures LastToken(rest + " " + a) == a
  {
    var s := rest + " " + a;
    if a == [] {
      assert s[|s| - 1] == ' ';
    } else {
      var a' := a[..|a| - 1];
      assert s[|s| - 1] == a[|a| - 1];
      assert s[..|s| - 1] == rest + " " + a';
      LastTokenOfSuffix(rest, a');
      assert a' + [a[|a| - 1]] == a;
    }
  }

  /** A space-free symbol is both the first and the last token of the status. */
  lemma SymbolAtBothEnds(emoji: string, prefix: string, suffix: string)
    requires ' ' !in emoji
    ensures FirstToken(Format(emoji, prefix, suffix)) == emoji
    ensures LastToken(Format(emoji, prefix, suffix)) == emoji
  {
    var s := Format(emoji, prefix, suffix);
    assert s == emoji + " " + (prefix + " " + suffix + " " + emoji);
    FirstTokenOfPrefix(emoji, prefix + " " + suffix + " " + emoji);
    assert s == (emoji + " " + prefix + " " + suffix) + " " + emoji;
    LastTokenOfSuffix(emoji + " " + prefix + " " + suffix, emoji);
  }

  /** No symbol of the theme contains a space. */
  predicate SpaceFreeSymbols(t: Theme)
  {
    forall i :: 0 <= i < |t.emojis| ==> ' ' !in t.emojis[i]
  }

  /**
   * In a theme whose symbols hold no space, a generated status begins and ends
   * with the same token, and that token is one of the theme's symbols.
   */
  lemma GeneratedEndsMatch(c: Catalog, d: Draws, theme: string)
    requires ValidCatalog(c)
    requires theme in ListThemes(c)
    requires SpaceFreeSymbols(Lookup(c, theme).value)
    ensures GenerateStatus(c, d, theme).Ok?
    ensures var s := GenerateStatus(c, d, theme).value;
      FirstToken(s) == LastToken(s) && FirstToken(s) in Lookup(c, theme).value.emojis
  {
    GenerateStatusExact(c, d, theme);
    var t := Lookup(c, theme).value;
    var i := RandomIndex(d.emoji, |t.emojis|);
    SymbolAtBothEnds(t.emojis[i], t.prefixes[RandomIndex(d.prefix, |t.prefixes|)], t.suffixes[RandomIndex(d.suffix, |t.suffixes|)]);
  }

  // ---------------------------------------------------------------------------
  // Facts about the compiled-in catalog

  /** The compiled-in catalog meets what the generator relies on. */
  lemma ThemesValid()
    ensures ValidCatalog(Themes)
    ensures forall i :: 0 <= i < |Themes| ==> SpaceFreeSymbols(Themes[i].1)
  {
    assert NonEmptyLists(WorkMood) && SpaceFreeSymbols(WorkMood);
    assert NonEmptyLists(WeekendVibes) && SpaceFreeSymbols(WeekendVibes);
    assert NonEmptyLists(FoodMood) && SpaceFreeSymbols(FoodMood);
  }

  /** listThemes() is ['work_mood', 'weekend_vibes', 'food_mood'], without repetition. */
  lemma ThemesKeys()
    ensures ListThemes(Themes) == ["work_mood", "weekend_vibes", "food_mood"]
    ensures forall i, j :: 0 <= i < j < |ListThemes(Themes)| ==> ListThemes(Themes)[i] != ListThemes(Themes)[j]
  {
    ThemesValid();
    ListThemesDistinct(Themes);
  }

  /** With every draw 0, the argument-less call gives the first entry of each work_mood list. */
  lemma DefaultWithZeroDraws()
    ensures ValidCatalog(Themes)
    ensures GenerateStatus(Themes, Draws(0.0, 0.0, 0.0)) == Ok("💻 In a meeting mode 💻")
  {
    ThemesValid();
    LookupFindsEntry(Themes, 0);
    assert Lookup(Themes, DefaultTheme) == Some(WorkMood);
    assert RandomIndex(0.0, 12) == 0 && RandomIndex(0.0, 6) == 0 && RandomIndex(0.0, 5) == 0;
    assert WorkMood.emojis[0] == "💻" && WorkMood.prefixes[0] == "In a meeting" && WorkMood.suffixes[0] == "mode";
    assert GenerateStatus(Themes, Draws(0.0, 0.0, 0.0)) == Ok(Format("💻", "In a meeting", "mode"));
    FirstWorkMoodText();
  }

  /** The formatted text of the first work_mood entries. */
  lemma FirstWorkMoodText()
    ensures Format("💻", "In a meeting", "mode") == "💻 In a meeting mode 💻"
  {
  }

  /** Names differing from a key in case or surrounding space are not found. */
  lemma ThemesExactMatch(d: Draws)
    ensures ValidCatalog(Themes)
    ensures GenerateStatus(Themes, d, "Work_Mood") == Err(ThemeNotFound)
    ensures GenerateStatus(Themes, d, " work_mood") == Err(ThemeNotFound)
    ensures GenerateStatus(Themes, d, "work_mood ") == Err(ThemeNotFound)
    ensures GenerateStatus(Themes, d, "") == Err(ThemeNotFound)
  {
    ThemesValid();
    ThemesKeys();
  }
}
