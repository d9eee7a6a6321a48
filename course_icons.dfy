/**
 * The course theme picker of lib/course-icons.ts: a title and a list of tags are
 * lower-cased, then eight rules are tried in a fixed order, each firing on a word
 * that occurs in the title or on a tag that equals one of its words; the first rule
 * that fires names the theme, and a ninth, default theme is used when none does.
 *
 * A theme stands for the icon and colour classes the source returns with it.
 */
module CourseIcons {
  import opened Text

  datatype Theme =
    | Python           // Code icon, purple
    | JavaScript       // FileCode icon, orange
    | React            // Zap icon, blue
    | WebDevelopment   // Globe icon, green
    | DataStructures   // Database icon, pink
    | MachineLearning  // Cpu icon, yellow
    | Backend          // Server icon, teal
    | Design           // PenTool icon, pink
    | Default          // BookOpen icon, blue

  /** `getCourseTheme(title, tags = [])`, rule by rule as the source writes it. */
  function CourseTheme(title: string, tags: seq<string> := []): Theme
  {
    var titleLower := LowerStr(title);
    var tagsLower := LowerAll(tags);
    if Contains(titleLower, "python") || "python" in tagsLower then Python
    else if Contains(titleLower, "javascript") || "javascript" in tagsLower then JavaScript
    else if Contains(titleLower, "react") || "react" in tagsLower then React
    else if Contains(titleLower, "web") || "web development" in tagsLower || "frontend" in tagsLower then WebDevelopment
    else if Contains(titleLower, "data structures") || "data structures" in tagsLower then DataStructures
    else if Contains(titleLower, "machine learning") || "machine learning" in tagsLower || "ai" in tagsLower then MachineLearning
    else if Contains(titleLower, "backend") || "backend" in tagsLower || "server" in tagsLower then Backend
    else if Contains(titleLower, "design") || "design" in tagsLower || "ui" in tagsLower then Design
    else Default
  }

  // ---------------------------------------------------------------------
  // The same classifier as a table of rules

  /** A rule fires on `titleWord` anywhere in the title, or on a tag equal to one of `tagWords`. */
  datatype Rule = Rule(theme: Theme, titleWord: string, tagWords: seq<string>)

  /** The rules in the order they are tried. */
  const Rules: seq<Rule> := [
    Rule(Python, "python", ["python"]),
    Rule(JavaScript, "javascript", ["javascript"]),
    Rule(React, "react", ["react"]),
    Rule(WebDevelopment, "web", ["web development", "frontend"]),
    Rule(DataStructures, "data structures", ["data structures"]),
    Rule(MachineLearning, "machine learning", ["machine learning", "ai"]),
    Rule(Backend, "backend", ["backend", "server"]),
    Rule(Design, "design", ["design", "ui"])
  ]

  /** Title words match as substrings, tag words as whole tags. */
  predicate Fires(r: Rule, titleLower: string, tagsLower: seq<string>)
  {
    Contains(titleLower, r.titleWord) || exists w :: w in r.tagWords && w in tagsLower
  }

  /** The position of the first rule that fires, or `|rules|` when none does. */
  function MatchIndex(rules: seq<Rule>, titleLower: string, tagsLower: seq<string>): (k: nat)
    ensures k <= |rules|
    ensures k < |rules| ==> Fires(rules[k], titleLower, tagsLower)
    ensures forall j :: 0 <= j < k ==> !Fires(rules[j], titleLower, tagsLower)
  {
    if rules == [] then 0
    else if Fires(rules[0], titleLower, tagsLower) then 0
    else 1 + MatchIndex(rules[1..], titleLower, tagsLower)
  }

  /** First match wins; nothing matching gives the default theme. */
  function FirstMatch(rules: seq<Rule>, titleLower: string, tagsLower: seq<string>): Theme
  {
    var k := MatchIndex(rules, titleLower, tagsLower);
    if k < |rules| then rules[k].theme else Default
  }

  /** The position of a theme's rule in the order; the default comes after all of them. */
  function Rank(t: Theme): nat
  {
    match t
    case Python => 0
    case JavaScript => 1
    case React => 2
    case WebDevelopment => 3
    case DataStructures => 4
    case MachineLearning => 5
    case Backend => 6
    case Design => 7
    case Default => 8
  }

  lemma RankInjective(a: Theme, b: Theme)
    requires Rank(a) == Rank(b)
    ensures a == b
  {
  }

  /** The `k`-th rule is the rule of the theme of rank `k`. */
  lemma RulesInRankOrder(k: nat)
    requires k < |Rules|
    ensures Rank(Rules[k].theme) == k
  {
    if k == 0 {} else if k == 1 {} else if k == 2 {} else if k == 3 {}
    else if k == 4 {} else if k == 5 {} else if k == 6 {} else {}
  }

  // ---------------------------------------------------------------------
  // Properties

  /** The if-chain is exactly the first-match rule table. */
  lemma ChainIsFirstMatch(title: string, tags: seq<string>)
    ensures CourseTheme(title, tags) == FirstMatch(Rules, LowerStr(title), LowerAll(tags))
  {
    var tl, gl := LowerStr(title), LowerAll(tags);
    var k := MatchIndex(Rules, tl, gl);
    if k == 0 {
    } else if k == 1 {
      assert !Fires(Rules[0], tl, gl);
    } else if k == 2 {
      assert !Fires(Rules[0], tl, gl) && !Fires(Rules[1], tl, gl);
    } else if k == 3 {
      assert !Fires(Rules[0], tl, gl) && !Fires(Rules[1], tl, gl) && !Fires(Rules[2], tl, gl);
    } else if k == 4 {
      assert !Fires(Rules[0], tl, gl) && !Fires(Rules[1], tl, gl) && !Fires(Rules[2], tl, gl);
      assert !Fires(Rules[3], tl, gl);
    } else if k == 5 {
      assert !Fires(Rules[0], tl, gl) && !Fires(Rules[1], tl, gl) && !Fires(Rules[2], tl, gl);
      assert !Fires(Rules[3], tl, gl) && !Fires(Rules[4], tl, gl);
    } else if k == 6 {
      assert !Fires(Rules[0], tl, gl) && !Fires(Rules[1], tl, gl) && !Fires(Rules[2], tl, gl);
      assert !Fires(Rules[3], tl, gl) && !Fires(Rules[4], tl, gl) && !Fires(Rules[5], tl, gl);
    } else {
      assert !Fires(Rules[0], tl, gl) && !Fires(Rules[1], tl, gl) && !Fires(Rules[2], tl, gl);
      assert !Fires(Rules[3], tl, gl) && !Fires(Rules[4], tl, gl) && !Fires(Rules[5], tl, gl);
      assert !Fires(Rules[6], tl, gl);
      if k == 8 {
        assert !Fires(Rules[7], tl, gl);
      }
    }
  }

  /** The rank of the chosen theme is the position of the first rule that fires. */
  lemma RankIsMatchIndex(title: string, tags: seq<string>)
    ensures Rank(CourseTheme(title, tags)) == MatchIndex(Rules, LowerStr(title), LowerAll(tags))
  {
    ChainIsFirstMatch(title, tags);
    var k := MatchIndex(Rules, LowerStr(title), LowerAll(tags));
    if k < |Rules| {
      RulesInRankOrder(k);
    }
  }

  /**
   * First match wins: the theme is `t` iff the rule of `t` fires (or `t` is the
   * default) and no rule before it fires.
   */
  lemma FirstMatchWins(title: string, tags: seq<string>, t: Theme)
    ensures CourseTheme(title, tags) == t <==>
      (Rank(t) < |Rules| ==> Fires(Rules[Rank(t)], LowerStr(title), LowerAll(tags))) &&
      (forall j :: 0 <= j < Rank(t) ==> !Fires(Rules[j], LowerStr(title), LowerAll(tags)))
  {
    var tl, gl := LowerStr(title), LowerAll(tags);
    RankIsMatchIndex(title, tags);
    var k := MatchIndex(Rules, tl, gl);
    if (Rank(t) < |Rules| ==> Fires(Rules[Rank(t)], tl, gl)) &&
       (forall j :: 0 <= j < Rank(t) ==> !Fires(Rules[j], tl, gl)) {
      assert k == Rank(t);
      RankInjective(CourseTheme(title, tags), t);
    }
  }

  /** A title mentioning Python gets the Python theme, whatever else it mentions. */
  lemma PythonTitleWins(title: string, tags: seq<string>)
    requires Contains(LowerStr(title), "python")
    ensures CourseTheme(title, tags) == Python
  {
  }

  /** Only the lower-cased title and tags matter: letter case never changes the theme. */
  lemma CaseInsensitive(title: string, tags: seq<string>, title': string, tags': seq<string>)
    requires SameUpToCase(title, title')
    requires LowerAll(tags) == LowerAll(tags')
    ensures CourseTheme(title, tags) == CourseTheme(title', tags')
  {
  }

  /** In particular, lower-casing the inputs first gives the same theme. */
  lemma LowerCasedInputs(title: string, tags: seq<string>)
    ensures CourseTheme(LowerStr(title), LowerAll(tags)) == CourseTheme(title, tags)
  {
    LowerStrIdempotent(title);
    LowerAllIdempotent(tags);
  }

  /** A lower-cased tag list only grows when the tag list does. */
  lemma LowerAllGrows(tags: seq<string>, more: seq<string>, w: string)
    requires forall t :: t in tags ==> t in more
    requires w in LowerAll(tags)
    ensures w in LowerAll(more)
  {
    var i :| 0 <= i < |tags| && LowerAll(tags)[i] == w;
    assert tags[i] in more;
    var j :| 0 <= j < |more| && more[j] == tags[i];
    assert LowerAll(more)[j] == w;
  }

  /**
   * Adding tags never moves the theme to a later rule: the rank of the chosen
   * theme does not increase.
   */
  lemma MoreTagsNeverLater(title: string, tags: seq<string>, more: seq<string>)
    requires forall t :: t in tags ==> t in more
    ensures Rank(CourseTheme(title, more)) <= Rank(CourseTheme(title, tags))
  {
    var tl := LowerStr(title);
    RankIsMatchIndex(title, tags);
    RankIsMatchIndex(title, more);
    var k := MatchIndex(Rules, tl, LowerAll(tags));
    if k < |Rules| {
      var r := Rules[k];
      if !Contains(tl, r.titleWord) {
        var w :| w in r.tagWords && w in LowerAll(tags);
        LowerAllGrows(tags, more, w);
      }
      assert Fires(r, tl, LowerAll(more));
    }
  }

  /** Lengthening the title around the old one never moves the theme to a later rule either. */
  lemma LongerTitleNeverLater(title: string, longer: string, tags: seq<string>)
    requires Contains(longer, title)
    ensures Rank(CourseTheme(longer, tags)) <= Rank(CourseTheme(title, tags))
  {
    var gl := LowerAll(tags);
    RankIsMatchIndex(title, tags);
    RankIsMatchIndex(longer, tags);
    var k := MatchIndex(Rules, LowerStr(title), gl);
    if k < |Rules| {
      var r := Rules[k];
      if Contains(LowerStr(title), r.titleWord) {
        ContainsLower(longer, title);
        ContainsTransitive(LowerStr(longer), LowerStr(title), r.titleWord);
      }
      assert Fires(r, LowerStr(longer), gl);
    }
  }

  /**
   * Without tags (the default argument), the default theme is chosen iff the
   * lower-cased title contains none of the eight title words.
   */
  lemma DefaultWithoutTags(title: string)
    ensures CourseTheme(title) == CourseTheme(title, [])
    ensures CourseTheme(title) == Default <==>
      forall j :: 0 <= j < |Rules| ==> !Contains(LowerStr(title), Rules[j].titleWord)
  {
    FirstMatchWins(title, [], Default);
    assert LowerAll([]) == [];
  }

  /** Title words match inside words, tag words only as whole tags. */
  lemma MatchingModes()
    ensures CourseTheme("CPython") == Python
    ensures CourseTheme("", ["python3"]) == Default
    ensures CourseTheme("Python and JavaScript") == Python
  {
    assert LowerStr("CPython")[1..7] == "python";
    ContainsAt(LowerStr("CPython"), "python", 1);
    assert LowerAll(["python3"]) == ["python3"] by {
      assert LowerStr("python3") == "python3";
    }
    assert LowerStr("Python and JavaScript")[..6] == "python";
  }

  /** The second trigger words of four rules. */
  lemma AlternateTagTriggers()
    ensures CourseTheme("", ["Frontend"]) == WebDevelopment
    ensures CourseTheme("", ["AI"]) == MachineLearning
    ensures CourseTheme("", ["Server"]) == Backend
    ensures CourseTheme("", ["UI"]) == Design
  {
    assert LowerAll(["Frontend"]) == ["frontend"] by { assert LowerStr("Frontend") == "frontend"; }
    assert LowerAll(["AI"]) == ["ai"] by { assert LowerStr("AI") == "ai"; }
    assert LowerAll(["Server"]) == ["server"] by { assert LowerStr("Server") == "server"; }
    assert LowerAll(["UI"]) == ["ui"] by { assert LowerStr("UI") == "ui"; }
  }
}
