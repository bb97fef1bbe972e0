/** Rename rules: compiling the configured `{pattern, newString}` pairs and
    applying the compiled rules, in order, to a file name. */
module Rules {
  import opened Wrappers

  /** The regular-expression library (RE2), seen only through the two calls
      the renamer makes on it. `compile(p)` is `new RE2(p)`, `None` when the
      constructor throws; `replace(re, s, t)` is `s.replace(re, t)`, `None`
      when that call throws. What a pattern matches and how the template is
      expanded stay inside `replace`. */
  datatype Engine<!P, !R> = Engine(compile: P -> Option<R>, replace: (R, string, string) -> Option<string>)

  /** A rule as configured: a pattern (source text or regular expression)
      and the replacement string. */
  datatype RawRule<P> = RawRule(pattern: P, newString: string)

  /** A rule whose pattern compiled. */
  datatype CompiledRule<R> = CompiledRule(pattern: R, newString: string)

  predicate Compiles<P, R>(engine: Engine<P, R>, rule: RawRule<P>) {
    engine.compile(rule.pattern).Some?
  }

  /** `raw` compiles to exactly `c`: same compiled pattern, same replacement. */
  ghost predicate CompilesTo<P, R>(engine: Engine<P, R>, raw: RawRule<P>, c: CompiledRule<R>) {
    engine.compile(raw.pattern) == Some(c.pattern) && c.newString == raw.newString
  }

  /** The mapping step for one rule: the compiled rule, or `None` (logged and
      skipped) when the pattern does not compile. */
  function TryCompile<P, R>(engine: Engine<P, R>, rule: RawRule<P>): Option<CompiledRule<R>> {
    match engine.compile(rule.pattern)
    case None => None
    case Some(re) => Some(CompiledRule(re, rule.newString))
  }

  /** `compileRules`: map every rule through `TryCompile`, then drop the
      failures, keeping the order of the rest. */
  function CompileRules<P, R>(engine: Engine<P, R>, rules: seq<RawRule<P>>): (compiled: seq<CompiledRule<R>>)
    ensures |compiled| <= |rules|
    ensures |compiled| == |rules| <==> forall i :: 0 <= i < |rules| ==> Compiles(engine, rules[i])
  {
    if rules == [] then []
    else
      var head := match TryCompile(engine, rules[0]) case None => [] case Some(c) => [c];
      head + CompileRules(engine, rules[1..])
  }

  /** Compiling a concatenation compiles each part on its own: the output
      keeps the relative order of the input. */
  lemma {:induction false} CompileRulesAppend<P, R>(engine: Engine<P, R>, a: seq<RawRule<P>>, b: seq<RawRule<P>>)
    ensures CompileRules(engine, a + b) == CompileRules(engine, a) + CompileRules(engine, b)
  {
    if a != [] {
      assert (a + b)[1..] == a[1..] + b;
      CompileRulesAppend(engine, a[1..], b);
    } else {
      assert a + b == b;
    }
  }

  /** A rule whose pattern does not compile is as if it were not there. */
  lemma CompileRulesSkipsInvalid<P, R>(engine: Engine<P, R>, a: seq<RawRule<P>>, bad: RawRule<P>, b: seq<RawRule<P>>)
    requires !Compiles(engine, bad)
    ensures CompileRules(engine, a + [bad] + b) == CompileRules(engine, a + b)
  {
    CompileRulesAppend(engine, a + [bad], b);
    CompileRulesAppend(engine, a, [bad]);
    CompileRulesAppend(engine, a, b);
  }

  /** Every compiled rule comes from some configured rule with its
      `newString` copied verbatim, and every configured rule that compiles
      is represented. */
  lemma {:induction false} CompileRulesMembers<P, R>(engine: Engine<P, R>, rules: seq<RawRule<P>>, c: CompiledRule<R>)
    ensures c in CompileRules(engine, rules) <==> exists i :: 0 <= i < |rules| && CompilesTo(engine, rules[i], c)
  {
    if rules != [] {
      CompileRulesMembers(engine, rules[1..], c);
      if exists i :: 0 <= i < |rules| && CompilesTo(engine, rules[i], c) {
        var i :| 0 <= i < |rules| && CompilesTo(engine, rules[i], c);
        if i > 0 {
          assert CompilesTo(engine, rules[1..][i - 1], c);
        }
      }
      if c in CompileRules(engine, rules[1..]) {
        var i :| 0 <= i < |rules[1..]| && CompilesTo(engine, rules[1..][i], c);
        assert CompilesTo(engine, rules[i + 1], c);
      }
    }
  }

  /** When every pattern compiles, the output lines up with the input
      position by position. */
  lemma {:induction false} CompileRulesAllValid<P, R>(engine: Engine<P, R>, rules: seq<RawRule<P>>)
    requires forall i :: 0 <= i < |rules| ==> Compiles(engine, rules[i])
    ensures |CompileRules(engine, rules)| == |rules|
    ensures forall i :: 0 <= i < |rules| ==> CompilesTo(engine, rules[i], CompileRules(engine, rules)[i])
  {
    if rules != [] {
      CompileRulesAllValid(engine, rules[1..]);
    }
  }

  /** One step of the fold in `filterMatches`: apply `rule` to `name`; a
      rule whose application throws leaves the name as it was. */
  function ApplyRule<P, R>(engine: Engine<P, R>, rule: CompiledRule<R>, name: string): string {
    match engine.replace(rule.pattern, name, rule.newString)
    case Some(s) => s
    case None => name
  }

  /** The `forEach` over the compiled rules: a left fold of `ApplyRule`.
      Seen from the other end, the last rule runs on what all the rules
      before it produced. */
  function ApplyRules<P, R>(engine: Engine<P, R>, rules: seq<CompiledRule<R>>, name: string): (r: string)
    ensures rules == [] ==> r == name
    ensures rules != [] ==> r == ApplyRule(engine, rules[|rules| - 1], ApplyRules(engine, rules[..|rules| - 1], name))
  {
    if rules == [] then name
    else
      var next := ApplyRule(engine, rules[0], name);
      assert |rules| == 1 ==> rules[..0] == [];
      assert |rules| > 1 ==> rules[..|rules| - 1][1..] == rules[1..][..|rules| - 2];
      ApplyRules(engine, rules[1..], next)
  }

  /** Rules apply in declaration order: the rules after a split see the
      output of the rules before it. */
  lemma {:induction false} ApplyRulesAppend<P, R>(engine: Engine<P, R>, a: seq<CompiledRule<R>>, b: seq<CompiledRule<R>>, name: string)
    ensures ApplyRules(engine, a + b, name) == ApplyRules(engine, b, ApplyRules(engine, a, name))
  {
    if a != [] {
      assert (a + b)[1..] == a[1..] + b;
      ApplyRulesAppend(engine, a[1..], b, ApplyRule(engine, a[0], name));
    } else {
      assert a + b == b;
    }
  }

  /** The last rule is applied to what all earlier rules produced: the
      second postcondition of `ApplyRules`, written for a rule list given
      as `rules + [last]`. */
  lemma ApplyRulesLast<P, R>(engine: Engine<P, R>, rules: seq<CompiledRule<R>>, last: CompiledRule<R>, name: string)
    ensures ApplyRules(engine, rules + [last], name) == ApplyRule(engine, last, ApplyRules(engine, rules, name))
  {
    ApplyRulesAppend(engine, rules, [last], name);
  }

  /** A rule that throws on the name it is given is skipped, and the rules
      after it still run on the unchanged name. */
  lemma ApplyRulesSkipsThrowing<P, R>(engine: Engine<P, R>, a: seq<CompiledRule<R>>, bad: CompiledRule<R>, b: seq<CompiledRule<R>>, name: string)
    requires engine.replace(bad.pattern, ApplyRules(engine, a, name), bad.newString).None?
    ensures ApplyRules(engine, a + [bad] + b, name) == ApplyRules(engine, a + b, name)
  {
    ApplyRulesAppend(engine, a + [bad], b, name);
    ApplyRulesAppend(engine, a, [bad], name);
    ApplyRulesAppend(engine, a, b, name);
  }
}
