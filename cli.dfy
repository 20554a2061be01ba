/**
 * The terminal front end of emoji-status.js, reduced to what it decides for
 * each line read: quit, print a status, or print the invalid-theme notice.
 * The readline interface, the prompt and the callback that asks again are
 * replaced by a recursive function over the sequence of lines read.
 */
module Cli {
  import opened Wrappers
  import opened StatusGenerator

  /** What the program does with one line. */
  datatype Reply = Quit | Printed(status: string) | Invalid(themes: seq<string>)

  /** One line read, together with the three draws generation would use for it. */
  datatype Input = Input(line: string, draws: Draws)

  function LowerChar(ch: char): char
  {
    if 'A' <= ch <= 'Z' then (ch as int - 'A' as int + 'a' as int) as char else ch
  }

  /** toLowerCase, on ASCII letters only. */
  function ToLower(s: string): (r: string)
    ensures |r| == |s|
  {
    if s == [] then [] else [LowerChar(s[0])] + ToLower(s[1..])
  }

  /** Lower-casing keeps the length and maps each character on its own. */
  lemma {:induction false} ToLowerPointwise(s: string)
    ensures forall i :: 0 <= i < |s| ==> ToLower(s)[i] == LowerChar(s[i])
  {
    if s != [] {
      ToLowerPointwise(s[1..]);
    }
  }

  /** `theme.toLowerCase() === 'quit'`; only a line of four characters can pass. */
  predicate IsQuit(line: string): (q: bool)
    ensures q ==> |line| == 4
  {
    ToLower(line) == "quit"
  }

  /** The lines that quit are exactly the 16 spellings of "quit" in mixed case. */
  lemma QuitSpellings(line: string)
    ensures IsQuit(line) <==>
      |line| == 4 && line[0] in "qQ" && line[1] in "uU" && line[2] in "iI" && line[3] in "tT"
  {
    ToLowerPointwise(line);
    if IsQuit(line) {
      assert |line| == 4;
      assert LowerChar(line[0]) == 'q' && LowerChar(line[1]) == 'u';
      assert LowerChar(line[2]) == 'i' && LowerChar(line[3]) == 't';
    }
    if |line| == 4 && line[0] in "qQ" && line[1] in "uU" && line[2] in "iI" && line[3] in "tT" {
      assert ToLower(line) == "quit";
    }
  }

  /**
   * One turn of promptUser: a quit line ends the loop without generating;
   * any other line goes to generateStatus unchanged, and a failure is
   * answered with the list of themes.
   */
  function Step(c: Catalog, line: string, d: Draws): (r: Reply)
    requires ValidCatalog(c)
    ensures r.Quit? <==> IsQuit(line)
    ensures r.Printed? ==> GenerateStatus(c, d, line) == Ok(r.status)
    ensures r.Invalid? ==> r.themes == ListThemes(c) && GenerateStatus(c, d, line) == Err(ThemeNotFound)
  {
    if IsQuit(line) then Quit
    else
      match GenerateStatus(c, d, line)
      case Ok(status) => Printed(status)
      case Err(_) => Invalid(ListThemes(c))
  }

  /** A status is printed exactly for a non-quit line that names a catalog theme. */
  lemma StepPrintsKnownThemes(c: Catalog, line: string, d: Draws)
    requires ValidCatalog(c)
    ensures Step(c, line, d).Printed? <==> !IsQuit(line) && line in ListThemes(c)
  {
  }

  /** The total number of characters of a list of strings. */
  function TotalLength(xs: seq<string>): nat
  {
    if xs == [] then 0 else |xs[0]| + TotalLength(xs[1..])
  }

  /** Array.prototype.join. */
  function Join(xs: seq<string>, sep: string): string
  {
    if |xs| == 0 then "" else if |xs| == 1 then xs[0] else xs[0] + sep + Join(xs[1..], sep)
  }

  /** The first part opens a join and the last part closes it. */
  lemma {:induction false} JoinEnds(xs: seq<string>, sep: string)
    requires xs != []
    ensures xs[0] <= Join(xs, sep)
    ensures |xs[|xs| - 1]| <= |Join(xs, sep)|
    ensures Join(xs, sep)[|Join(xs, sep)| - |xs[|xs| - 1]|..] == xs[|xs| - 1]
  {
    if |xs| > 1 {
      var rest := Join(xs[1..], sep);
      JoinEnds(xs[1..], sep);
      assert xs[1..][|xs[1..]| - 1] == xs[|xs| - 1];
      assert (xs[0] + sep + rest)[|xs[0] + sep + rest| - |rest|..] == rest;
    }
  }

  /** A join holds every character of the parts and one separator per gap. */
  lemma {:induction false} JoinLength(xs: seq<string>, sep: string)
    requires xs != []
    ensures |Join(xs, sep)| == TotalLength(xs) + (|xs| - 1) * |sep|
  {
    if |xs| > 1 {
      JoinLength(xs[1..], sep);
    }
  }

  /**
   * The lines console.log prints for one reply (its arguments joined by a
   * space): nothing for a quit; the status and the clipboard line for a
   * status; one line ending with the joined theme names for a failure.
   */
  function Render(r: Reply): (lines: seq<string>)
    ensures r.Quit? <==> lines == []
    ensures r.Printed? ==> |lines| == 2 && lines[1] == "Status copied to clipboard!\n"
    ensures r.Printed? ==> |r.status| <= |lines[0]| && lines[0][|lines[0]| - |r.status|..] == r.status
    ensures r.Invalid? ==> |lines| == 1 && var names := Join(r.themes, ", ");
      |names| <= |lines[0]| && lines[0][|lines[0]| - |names|..] == names
  {
    match r
    case Quit => []
    case Printed(status) => ["\nGenerated Status: " + status, "Status copied to clipboard!\n"]
    case Invalid(themes) => ["Invalid theme. Available themes: " + Join(themes, ", ")]
  }

  /**
   * The replies of a whole session: one per line, up to and including the
   * first quit line; lines after it are never read.
   */
  function Session(c: Catalog, inputs: seq<Input>): (r: seq<Reply>)
    requires ValidCatalog(c)
    ensures |r| <= |inputs|
    ensures forall i :: 0 <= i < |r| - 1 ==> !IsQuit(inputs[i].line)
    ensures |r| < |inputs| ==> r != [] && IsQuit(inputs[|r| - 1].line)
  {
    if inputs == [] then []
    else
      var reply := Step(c, inputs[0].line, inputs[0].draws);
      if reply.Quit? then [reply]
      else
        [reply] + Session(c, inputs[1..])
  }

  /** Each reply of a session is the step for the line at the same position. */
  lemma {:induction false} SessionReplies(c: Catalog, inputs: seq<Input>, i: nat)
    requires ValidCatalog(c)
    requires i < |Session(c, inputs)|
    ensures Session(c, inputs)[i] == Step(c, inputs[i].line, inputs[i].draws)
  {
    if i > 0 {
      assert inputs[1..][i - 1] == inputs[i];
      SessionReplies(c, inputs[1..], i - 1);
    }
  }

  /** The session ends exactly at the first quit line, which produces no output. */
  lemma SessionStopsAtFirstQuit(c: Catalog, inputs: seq<Input>, q: nat)
    requires ValidCatalog(c)
    requires q < |inputs| && IsQuit(inputs[q].line)
    requires forall i :: 0 <= i < q ==> !IsQuit(inputs[i].line)
    ensures |Session(c, inputs)| == q + 1
    ensures Session(c, inputs)[q] == Quit
    ensures forall i :: 0 <= i < q ==> !Session(c, inputs)[i].Quit?
  {
    SessionReplies(c, inputs, q);
    forall i | 0 <= i < q ensures !Session(c, inputs)[i].Quit? {
      SessionReplies(c, inputs, i);
    }
  }

  /** After a line that does not quit, the session goes on with the next line. */
  lemma SessionContinues(c: Catalog, x: Input, rest: seq<Input>)
    requires ValidCatalog(c)
    requires !IsQuit(x.line)
    ensures Session(c, [x] + rest) == [Step(c, x.line, x.draws)] + Session(c, rest)
  {
    assert ([x] + rest)[1..] == rest;
  }

  /** A quit line ends the session; nothing after it is read. */
  lemma SessionQuitFirst(c: Catalog, x: Input, rest: seq<Input>)
    requires ValidCatalog(c)
    requires IsQuit(x.line)
    ensures Session(c, [x] + rest) == [Quit]
  {
  }

  /** Two lines that do not quit and then a quit line give two steps and Quit. */
  lemma SessionOfThree(c: Catalog, x: Input, y: Input, z: Input)
    requires ValidCatalog(c)
    requires !IsQuit(x.line) && !IsQuit(y.line) && IsQuit(z.line)
    ensures Session(c, [x, y, z]) == [Step(c, x.line, x.draws), Step(c, y.line, y.draws), Quit]
  {
    assert [x, y, z][1..] == [y, z];
    assert [y, z][1..] == [z];
    assert Session(c, [z]) == [Quit];
    assert Session(c, [y, z]) == [Step(c, y.line, y.draws), Quit];
  }

  /** Without a quit line, every line gets a reply and none of them quits. */
  lemma SessionWithoutQuit(c: Catalog, inputs: seq<Input>)
    requires ValidCatalog(c)
    requires forall i :: 0 <= i < |inputs| ==> !IsQuit(inputs[i].line)
    ensures |Session(c, inputs)| == |inputs|
    ensures forall i :: 0 <= i < |inputs| ==> !Session(c, inputs)[i].Quit?
  {
  }

  // ---------------------------------------------------------------------------
  // Lines against the compiled-in catalog

  /** "QUIT" quits; "Work_Mood" is passed on unchanged and is invalid; "work_mood" prints a status. */
  lemma ThemesSteps(d: Draws)
    ensures ValidCatalog(Themes)
    ensures Step(Themes, "QUIT", d) == Quit
    ensures Step(Themes, "Work_Mood", d) == Invalid(["work_mood", "weekend_vibes", "food_mood"])
    ensures Step(Themes, "work_mood", d).Printed?
  {
    ThemesValid();
    ThemesKeys();
    QuitSpellings("QUIT");
    ThemesExactMatch(d);
  }

  /** Joining three names puts the separator between neighbours only. */
  lemma JoinThree(a: string, b: string, c: string, sep: string)
    ensures Join([a, b, c], sep) == a + sep + b + sep + c
  {
    assert [a, b, c][1..] == [b, c];
    assert [b, c][1..] == [c];
    assert Join([c], sep) == c;
    assert Join([b, c], sep) == b + sep + c;
    assert Join([a, b, c], sep) == a + sep + (b + sep + c);
    assert a + sep + (b + sep + c) == a + sep + b + sep + c;
  }

  /** The notice printed for an unknown theme. */
  lemma ThemesInvalidNotice()
    ensures Render(Invalid(ListThemes(Themes))) ==
      ["Invalid theme. Available themes: work_mood, weekend_vibes, food_mood"]
  {
    ThemesKeys();
    JoinThree("work_mood", "weekend_vibes", "food_mood", ", ");
    assert Render(Invalid(ListThemes(Themes))) ==
      ["Invalid theme. Available themes: " + Join(["work_mood", "weekend_vibes", "food_mood"], ", ")];
    NoticeText();
  }

  /** The notice text, assembled piece by piece. */
  lemma NoticeText()
    ensures "Invalid theme. Available themes: " + ("work_mood" + ", " + "weekend_vibes" + ", " + "food_mood")
      == "Invalid theme. Available themes: work_mood, weekend_vibes, food_mood"
  {
  }

  // ---------------------------------------------------------------------------
  // A one-theme catalog with singleton lists

  /** A catalog with one theme whose lists each hold a single entry. */
  const SingleTheme: Catalog := [("work_mood", Theme(["💻"], ["Coding"], ["time"]))]

  /**
   * The input "bogus", "work_mood", "quit" gives the invalid notice, then
   * "💻 Coding time 💻" whatever the draws, then ends.
   */
  lemma SingleThemeSession(d0: Draws, d1: Draws, d2: Draws)
    ensures ValidCatalog(SingleTheme)
    ensures Session(SingleTheme, [Input("bogus", d0), Input("work_mood", d1), Input("quit", d2)])
      == [Invalid(["work_mood"]), Printed("💻 Coding time 💻"), Quit]
  {
    SingleThemeSessionShape(d0, d1, d2);
    SingleThemeUnknown(d0);
    SingleThemeKnown(d1);
  }

  /** The replies to the three lines are the two steps and Quit. */
  lemma SingleThemeSessionShape(d0: Draws, d1: Draws, d2: Draws)
    ensures ValidCatalog(SingleTheme)
    ensures Session(SingleTheme, [Input("bogus", d0), Input("work_mood", d1), Input("quit", d2)])
      == [Step(SingleTheme, "bogus", d0), Step(SingleTheme, "work_mood", d1), Quit]
  {
    ScenarioLines();
    SessionOfThree(SingleTheme, Input("bogus", d0), Input("work_mood", d1), Input("quit", d2));
  }

  /** Of the three lines, only "quit" quits. */
  lemma ScenarioLines()
    ensures !IsQuit("bogus") && !IsQuit("work_mood") && IsQuit("quit")
  {
  }

  /** "bogus" is not a key of the one-theme catalog. */
  lemma SingleThemeUnknown(d: Draws)
    ensures ValidCatalog(SingleTheme)
    ensures Step(SingleTheme, "bogus", d) == Invalid(["work_mood"])
  {
    assert ListThemes(SingleTheme) == ["work_mood"];
  }

  /** "work_mood" prints the only status its singleton lists allow. */
  lemma SingleThemeKnown(d: Draws)
    ensures ValidCatalog(SingleTheme)
    ensures Step(SingleTheme, "work_mood", d) == Printed("💻 Coding time 💻")
  {
    SingleThemeGenerates(d);
    CodingTimeText();
  }

  /** Every draw picks index 0 of a one-element list. */
  lemma SingleThemeGenerates(d: Draws)
    ensures ValidCatalog(SingleTheme)
    ensures GenerateStatus(SingleTheme, d, "work_mood") == Ok(Format("💻", "Coding", "time"))
  {
    assert ListThemes(SingleTheme) == ["work_mood"];
    LookupFindsEntry(SingleTheme, 0);
  }

  /** The formatted text of that status. */
  lemma CodingTimeText()
    ensures Format("💻", "Coding", "time") == "💻 Coding time 💻"
  {
  }

  /**
   * What the terminal shows for that session: the notice naming the one
   * theme, then the status and the clipboard line, then nothing for "quit".
   */
  lemma SingleThemeTranscript(d0: Draws, d1: Draws, d2: Draws)
    ensures ValidCatalog(SingleTheme)
    ensures var r := Session(SingleTheme, [Input("bogus", d0), Input("work_mood", d1), Input("quit", d2)]);
      |r| == 3
      && Render(r[0]) == ["Invalid theme. Available themes: work_mood"]
      && Render(r[1]) == ["\nGenerated Status: 💻 Coding time 💻", "Status copied to clipboard!\n"]
      && Render(r[2]) == []
  {
    SingleThemeSession(d0, d1, d2);
    SingleThemeNoticeLine();
    CodingTimeLines();
  }

  /** The notice for the one-theme catalog. */
  lemma SingleThemeNoticeLine()
    ensures Render(Invalid(["work_mood"])) == ["Invalid theme. Available themes: work_mood"]
  {
    assert Render(Invalid(["work_mood"])) == ["Invalid theme. Available themes: " + "work_mood"];
    assert "Invalid theme. Available themes: " + "work_mood" == "Invalid theme. Available themes: work_mood";
  }

  /** The two lines printed for "💻 Coding time 💻". */
  lemma CodingTimeLines()
    ensures Render(Printed("💻 Coding time 💻"))
      == ["\nGenerated Status: 💻 Coding time 💻", "Status copied to clipboard!\n"]
  {
    assert Render(Printed("💻 Coding time 💻"))
      == ["\nGenerated Status: " + "💻 Coding time 💻", "Status copied to clipboard!\n"];
    assert "\nGenerated Status: " + "💻 Coding time 💻" == "\nGenerated Status: 💻 Coding time 💻";
  }
}
