/** The rules of the test configuration, `/\.PNG$/` to `.png` and `/\s/g`
    to `-`, on a stand-in for the regular-expression library that knows
    just these patterns, and the renames they give. */
module WorkedExamples {
  import opened Wrappers
  import opened Text
  import opened Rules
  import opened Matches

  /** The patterns the stand-in knows; `Unbalanced` is one the library
      refuses to compile (such as `(`). */
  datatype DemoPattern = PngSuffix | Whitespace | Unbalanced

  function DemoCompile(p: DemoPattern): Option<DemoPattern> {
    if p.Unbalanced? then None else Some(p)
  }

  /** `\s`, on ASCII. */
  predicate IsSpace(c: char) {
    c == ' ' || c == '\t' || c == '\n' || c == '\r' || c == '\U{C}' || c == '\U{B}'
  }

  /** `s.replace(/\s/g, t)`: every white-space character becomes `t`. */
  function ReplaceSpaces(s: string, t: string): (r: string)
    ensures (forall i :: 0 <= i < |s| ==> !IsSpace(s[i])) ==> r == s
  {
    if s == [] then []
    else (if IsSpace(s[0]) then t else [s[0]]) + ReplaceSpaces(s[1..], t)
  }

  lemma {:induction false} ReplaceSpacesAppend(a: string, b: string, t: string)
    ensures ReplaceSpaces(a + b, t) == ReplaceSpaces(a, t) + ReplaceSpaces(b, t)
  {
    if a == [] {
      assert a + b == b;
    } else {
      assert (a + b)[1..] == a[1..] + b;
      ReplaceSpacesAppend(a[1..], b, t);
    }
  }

  function DemoReplace(re: DemoPattern, s: string, t: string): Option<string> {
    match re
    case PngSuffix =>
      if |s| >= 4 && s[|s| - 4..] == ".PNG" then Some(s[..|s| - 4] + t) else Some(s)
    case Whitespace => Some(ReplaceSpaces(s, t))
    case Unbalanced => None
  }

  function Demo(): Engine<DemoPattern, DemoPattern> {
    Engine(DemoCompile, DemoReplace)
  }

  function TestRules(): seq<RawRule<DemoPattern>> {
    [RawRule(PngSuffix, ".png"), RawRule(Whitespace, "-")]
  }

  /** The compiled form of the test rules. */
  function TestCompiled(): seq<CompiledRule<DemoPattern>> {
    [CompiledRule(PngSuffix, ".png"), CompiledRule(Whitespace, "-")]
  }

  /** A pattern that does not compile is dropped and the others keep their
      order and replacement strings. */
  lemma CompileRulesExample()
    ensures CompileRules(Demo(), TestRules()) == TestCompiled()
    ensures CompileRules(Demo(), [RawRule(PngSuffix, ".png"), RawRule(Unbalanced, "x"), RawRule(Whitespace, "-")])
         == TestCompiled()
  {
  }

  /** How the literals of the examples are spelled out of their pieces. */
  lemma SpellingFacts()
    ensures "test file.png" == "test" + " " + "file.png"
    ensures "test" + "-" + "file.png" == "test-file.png"
    ensures "/" + "test-file.png" == "/test-file.png"
    ensures "/" + "a.png" == "/a.png"
  {
  }

  /** The whitespace rule on `test file.png`. Stated over variables so
      that the verifier composes the pieces rather than unfolding the
      literal. */
  lemma SpacesInTestFile(a: string, b: string)
    requires a == "test" && b == "file.png"
    ensures ReplaceSpaces(a + " " + b, "-") == a + "-" + b
  {
    assert ReplaceSpaces(a, "-") == a;
    assert ReplaceSpaces(b, "-") == b;
    ReplaceSpacesAppend(a + " ", b, "-");
    ReplaceSpacesAppend(a, " ", "-");
  }

  /** The two test rules on `test file.PNG`: the suffix rule gives
      `test file.png`, and the whitespace rule, applied to that, gives
      `test-file.png`. */
  lemma TestFileRules(name: string, middle: string)
    requires name == "test file.PNG" && middle == "test file.png"
    ensures ApplyRules(Demo(), TestCompiled(), name) == "test-file.png"
  {
    var rules := TestCompiled();
    assert ApplyRule(Demo(), rules[0], name) == middle;
    SpacesInTestFile("test", "file.png");
    SpellingFacts();
    assert ApplyRule(Demo(), rules[1], middle) == "test-file.png";
    assert ApplyRules(Demo(), rules[1..], middle) == "test-file.png";
  }

  /** Neither test rule changes `nochange.png`. */
  lemma NoChangeRules(name: string)
    requires name == "nochange.png"
    ensures ApplyRules(Demo(), TestCompiled(), name) == name
  {
    var rules := TestCompiled();
    assert ApplyRule(Demo(), rules[0], name) == name;
    assert ReplaceSpaces(name, "-") == name;
    assert ApplyRule(Demo(), rules[1], name) == name;
    assert ApplyRules(Demo(), rules[1..], name) == name;
  }

  /** The candidate built for `test file.PNG` at the root. */
  lemma TestFileCandidate(test: SearchMatch)
    requires test == SearchMatch("test file.PNG", "/test file.PNG")
    ensures Rename(Demo(), TestCompiled(), test) == Candidate("/test file.PNG", "/test-file.png")
  {
    TestFileRules(test.name, "test file.png");
    assert test.pathDisplay == "/" + test.name;
    RenameAtRoot(Demo(), TestCompiled(), test.name);
    SpellingFacts();
  }

  /** The candidate built for `nochange.png` leaves its path as it is. */
  lemma NoChangeCandidate(plain: SearchMatch)
    requires plain == SearchMatch("nochange.png", "/nochange.png")
    ensures Rename(Demo(), TestCompiled(), plain) == Candidate(plain.pathDisplay, plain.pathDisplay)
  {
    NoChangeRules(plain.name);
    ReplaceFirstBySelf(plain.pathDisplay, plain.name);
  }

  /** The letter-case comparisons the examples rely on. */
  lemma CaseFacts()
    ensures IsRename(Candidate("/test file.PNG", "/test-file.png"))
    ensures !IsRename(Candidate("/a.PNG", "/a.png"))
  {
    assert Lower("/test file.PNG")[5] != Lower("/test-file.png")[5];
    assert Lower("/a.PNG") == Lower("/a.png");
  }

  /** `test file.PNG` becomes `test-file.png`: both rules apply, the second
      to the first one's output. `nochange.png` is unchanged and dropped. */
  lemma FilterMatchesExample(test: SearchMatch, plain: SearchMatch)
    requires test == SearchMatch("test file.PNG", "/test file.PNG")
    requires plain == SearchMatch("nochange.png", "/nochange.png")
    ensures FilterMatches(Demo(), CompileRules(Demo(), TestRules()), [test, plain])
         == [Candidate("/test file.PNG", "/test-file.png")]
    ensures FilterMatches(Demo(), CompileRules(Demo(), TestRules()), [plain]) == []
  {
    CompileRulesExample();
    TestFileCandidate(test);
    NoChangeCandidate(plain);
    CaseFacts();
    assert [test, plain][1..] == [plain];
  }

  /** A rename that only changes letter case, `a.PNG` to `a.png`, is not
      submitted. */
  lemma CaseOnlyRenameExample(m: SearchMatch)
    requires m == SearchMatch("a.PNG", "/a.PNG")
    ensures FilterMatches(Demo(), [CompiledRule(PngSuffix, ".png")], [m]) == []
  {
    var rules := [CompiledRule(PngSuffix, ".png")];
    assert ApplyRule(Demo(), rules[0], m.name) == "a.png";
    assert ApplyRules(Demo(), rules, m.name) == "a.png";
    assert m.pathDisplay == "/" + m.name;
    RenameAtRoot(Demo(), rules, m.name);
    SpellingFacts();
    CaseFacts();
  }
}
