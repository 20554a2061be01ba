# Random Emoji Status Generator — a Dafny model

This project models the status generator of `emoji-status.js`: a compiled-in
catalog of three themes (`work_mood`, `weekend_vibes`, `food_mood`), each with
an ordered list of emojis, of prefixes and of suffixes; `generateStatus`, which
looks a theme up by exact name, draws one element from each list and formats
`${emoji} ${prefix} ${suffix} ${emoji}`; `listThemes`; and the decision the
terminal front end makes for each line it reads (quit, print a status, or print
the invalid-theme notice).

Files:

- `wrappers.dfy` (module `Wrappers`): `Option` and `Result`.
- `status_generator.dfy` (module `StatusGenerator`): the catalog as an ordered
  `seq<(string, Theme)>`, lookup, `getRandomElement`, `generateStatus`,
  `listThemes`, and the lemmas about them.
- `cli.dfy` (module `Cli`): the per-line step, the text it prints, and a
  session over a finite sequence of input lines.

`Math.random()` is replaced by an explicit draw: a value of the subset type
`Fraction` (a real in [0, 1)), one per list, so every call is a total function
of the theme name and its three draws. The index is `Floor(r * len)`, in exact
real arithmetic. Each list is a `seq<string>`, so the repeated `🎪` and `🎭` of
`weekend_vibes` are kept. Each symbol is a string, because `✍️` and `🏖️` are two
code points each.

`generateStatus` throws `new Error('Theme not found')` without the rejected
name, and the terminal front end ignores the error value (emoji-status.js:38,
75-76). The model has one error, `ThemeNotFound`, whose message is
`Message(ThemeNotFound)`.

The catalog itself, `StatusGenerator.Themes` (emoji-status.js:7-23), is a
constant; what it holds is stated by `ThemesValid` and `ThemesKeys`.

## Model

| member | source | states |
|---|---|---|
| StatusGenerator.ListThemes | emoji-status.js:48-50 | the result has one entry per catalog theme: the theme names in definition order |
| StatusGenerator.ListThemesDistinct | emoji-status.js:48-50 | when the catalog's names are unique (as object keys are), listThemes has no repeated name |
| StatusGenerator.Lookup | emoji-status.js:36-39 | the lookup misses exactly when the name is not a catalog key; a hit returns a (name, theme) pair of the catalog |
| StatusGenerator.LookupFindsEntry | emoji-status.js:36 | with unique names, looking up an entry's name returns that entry's theme |
| StatusGenerator.Message | emoji-status.js:38 | the message of the lookup failure is "Theme not found" |
| StatusGenerator.ScaledBelow | emoji-status.js:32 | for a draw r in [0, 1) and a non-empty list, 0 <= r * length < length |
| StatusGenerator.RandomIndex | emoji-status.js:32 | floor(r * length) is a valid index of a non-empty list |
| StatusGenerator.DrawFor | emoji-status.js:32 | every valid index is chosen by some draw in [0, 1) |
| StatusGenerator.GetRandomElement | emoji-status.js:31-33 | getRandomElement on a non-empty list returns an element of that list |
| StatusGenerator.GetRandomElementReaches | emoji-status.js:31-33 | every element of the list is returned for some draw |
| StatusGenerator.Format | emoji-status.js:45 | the status opens with the emoji and a space, closes with a space and the same emoji, and is as long as its three parts, the emoji twice over and three spaces |
| StatusGenerator.GenerateStatus | emoji-status.js:35-46 | fails with ThemeNotFound exactly when the name is not a catalog key (exact, case-sensitive); the theme argument defaults to work_mood |
| StatusGenerator.KeyedThemeNonEmpty | emoji-status.js:36-43 | in a valid catalog, the theme under any listed name has three non-empty lists, so the three draws are in range |
| StatusGenerator.GenerateStatusExact | emoji-status.js:41-45 | for a known theme the result is exactly emojis[i] + " " + prefixes[j] + " " + suffixes[k] + " " + emojis[i], where i, j, k are the three drawn indices and one emoji draw fills both ends |
| StatusGenerator.GenerateSound | emoji-status.js:35-46 | every name listThemes returns generates successfully, and the result is one of that theme's statuses |
| StatusGenerator.GenerateComplete | emoji-status.js:41-45 | every status built from one emoji, one prefix and one suffix of the theme is produced by some three draws |
| StatusGenerator.GenerateOutcomes | emoji-status.js:41-45 | the possible outputs for a known theme are exactly its emoji/prefix/suffix/emoji combinations (both directions) |
| StatusGenerator.FirstTokenOfPrefix | emoji-status.js:45 | the text before the first space of a + " " + rest is a, when a holds no space |
| StatusGenerator.LastTokenOfSuffix | emoji-status.js:45 | the text after the last space of rest + " " + a is a, when a holds no space |
| StatusGenerator.SymbolAtBothEnds | emoji-status.js:45 | a space-free emoji is both the first and the last token of the formatted status |
| StatusGenerator.GeneratedEndsMatch | emoji-status.js:41-45 | in a theme whose emojis hold no space, a generated status starts and ends with the same token, and that token is one of the theme's emojis |
| StatusGenerator.ThemesValid | emoji-status.js:7-23 | the compiled-in catalog has unique names, three non-empty lists per theme, and no emoji containing a space |
| StatusGenerator.ThemesKeys | emoji-status.js:7-23 | listThemes() on the compiled-in catalog is ['work_mood', 'weekend_vibes', 'food_mood'], with no repetition |
| StatusGenerator.DefaultWithZeroDraws | emoji-status.js:35-45 | generateStatus() with no argument and all draws 0 returns exactly "💻 In a meeting mode 💻" |
| StatusGenerator.ThemesExactMatch | emoji-status.js:36-39 | "Work_Mood", " work_mood", "work_mood " and "" are all rejected with ThemeNotFound: no case folding, no trimming |
| Cli.ToLower | emoji-status.js:66 | lower-casing keeps the length of the line |
| Cli.ToLowerPointwise | emoji-status.js:66 | lower-casing maps each character by itself |
| Cli.QuitSpellings | emoji-status.js:66 | a line quits if and only if it is "quit" in any mix of upper and lower case |
| Cli.IsQuit | emoji-status.js:66 | only a line of four characters can quit |
| Cli.Step | emoji-status.js:65-79 | Quit exactly for a quit line; a Printed reply carries generateStatus's status for the raw line; an Invalid reply carries listThemes, and generateStatus failed with ThemeNotFound for that line |
| Cli.StepPrintsKnownThemes | emoji-status.js:71-74 | a status is printed if and only if the line does not quit and is a catalog key |
| Cli.Session | emoji-status.js:64-83 | at most one reply per line; no line before the last reply quits; the session is cut short only by a quit line |
| Cli.SessionReplies | emoji-status.js:65-79 | the reply at each position is the step for the line at that position |
| Cli.SessionStopsAtFirstQuit | emoji-status.js:66-69 | if line q is the first quit line, the session has exactly q + 1 replies, the last is Quit and none before it is |
| Cli.SessionContinues | emoji-status.js:79 | after a line that does not quit, the session goes on with the next line |
| Cli.SessionQuitFirst | emoji-status.js:66-69 | a quit line ends the session with Quit, and nothing after it is read |
| Cli.SessionOfThree | emoji-status.js:64-83 | two lines that do not quit followed by a quit line give their two steps and then Quit |
| Cli.SessionWithoutQuit | emoji-status.js:71-79 | without a quit line every line gets a reply and the session continues to the end of the input |
| Cli.JoinEnds | emoji-status.js:76 | a join of a non-empty list starts with its first element and ends with its last |
| Cli.JoinLength | emoji-status.js:76 | a join of n parts is as long as the parts together plus n - 1 separators |
| Cli.Render | emoji-status.js:73-76 | a quit prints nothing; a status prints two lines, the first ending with the status and the second the clipboard message; a failure prints one line ending with the theme names joined by ", " |
| Cli.ThemesSteps | emoji-status.js:66-76 | on the compiled-in catalog "QUIT" quits, "Work_Mood" is passed on raw and is invalid with the three names, and "work_mood" prints a status |
| Cli.JoinThree | emoji-status.js:76 | joining three names puts the separator between neighbours only |
| Cli.ThemesInvalidNotice | emoji-status.js:76 | the invalid notice reads "Invalid theme. Available themes: work_mood, weekend_vibes, food_mood" |
| Cli.SingleThemeUnknown | emoji-status.js:71-77 | with a one-theme catalog, "bogus" gives the invalid notice listing just "work_mood" |
| Cli.SingleThemeKnown | emoji-status.js:71-74 | with the one-theme catalog of singleton lists, "work_mood" prints "💻 Coding time 💻" for any draws |
| Cli.SingleThemeGenerates | emoji-status.js:41-45 | with singleton lists, any draws give the status made of the three single entries |
| Cli.SingleThemeSessionShape | emoji-status.js:64-83 | the replies to "bogus", "work_mood", "quit" are the two steps for the first two lines and then Quit |
| Cli.SingleThemeSession | emoji-status.js:64-83 | the input "bogus", "work_mood", "quit" gives, in order, the invalid notice, the status "💻 Coding time 💻", and the end of the session |
| Cli.SingleThemeTranscript | emoji-status.js:64-83 | for that input the terminal shows "Invalid theme. Available themes: work_mood", then "\nGenerated Status: 💻 Coding time 💻" and "Status copied to clipboard!\n", and nothing for "quit" |

`FirstWorkMoodText`, `NoticeText`, `ScenarioLines`, `CodingTimeText`,
`SingleThemeNoticeLine` and `CodingTimeLines` only evaluate literal text for the
concrete lemmas above, so they have no row.

## Left out

- Pseudo-randomness: `Math.random()` is an input (one draw in [0, 1) per list). The model claims nothing about the distribution of the draws.
- Floating point: `Math.floor(Math.random() * array.length)` is computed on exact reals. IEEE double rounding of the product is not modelled.
- Prototype keys: the source looks themes up in a plain JavaScript object. A name such as `toString` or `__proto__` finds an inherited property, skips the 'Theme not found' branch, and then fails with a TypeError. The model looks up catalog keys only, so such names fail with ThemeNotFound.
- Empty lists: if a list were empty, `getRandomElement` would return `undefined` and the status would contain the text "undefined". The model requires every theme to have non-empty lists (`ValidCatalog`), which the compiled-in catalog satisfies (`ThemesValid`).
- Cli.ToLower: lower-cases ASCII letters only, where JavaScript's `toLowerCase` covers all of Unicode. Only the comparison with "quit" is modelled, and no non-ASCII character lower-cases to exactly one of q, u, i, t ('İ' lower-cases to "i" followed by U+0307, two characters), so the two agree on which lines quit.
- Strings are sequences of Unicode scalar values, where JavaScript uses UTF-16 code units. Nothing modelled depends on the difference.
- readline I/O: the interface, the prompt text, the greeting and theme list printed at start-up, and the callback that asks again are left out. A session is a sequence of the lines read. For each line the model gives the step's reply and the text printed for it (`Cli.Render`).
- The "Status copied to clipboard!" line is only printed text. Nothing is copied in the terminal front end.
- The Electron window, the application lifecycle and the `--gui` mode switch are platform UI code, so they are left out.
- The `guiHTML` page is left out: its markup, its in-page script with the mutable `currentStatus`, and the asynchronous `navigator.clipboard` call are UI and foreign calls. The page is also never loaded, because `index.html` is loaded instead.
