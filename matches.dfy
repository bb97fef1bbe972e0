/** `filterMatches`: from search matches to the rename candidates that
    actually change a path. */
module Matches {
  import opened Text
  import opened Rules

  /** The part of a search match the renamer reads
      (`item.metadata.metadata`): the leaf name and the displayed path. */
  datatype SearchMatch = SearchMatch(name: string, pathDisplay: string)

  /** One entry of the batch move: `{from_path, to_path}`. */
  datatype Candidate = Candidate(fromPath: string, toPath: string)

  /** The mapping step for one match: fold the rules over its name, then
      put the new name in place of the first occurrence of the old name in
      the displayed path. */
  function Rename<P, R>(engine: Engine<P, R>, rules: seq<CompiledRule<R>>, m: SearchMatch): (c: Candidate)
    ensures c.fromPath == m.pathDisplay
    ensures forall k :: IsFirstOccurrence(m.name, m.pathDisplay, k) ==>
      c.toPath == m.pathDisplay[..k] + ApplyRules(engine, rules, m.name) + m.pathDisplay[k + |m.name|..]
    ensures (forall k :: !OccursAt(m.name, m.pathDisplay, k)) ==> c.toPath == m.pathDisplay
  {
    Candidate(m.pathDisplay, ReplaceFirst(m.pathDisplay, m.name, ApplyRules(engine, rules, m.name)))
  }

  /** For a file at the root (`/name`, a name that does not start with
      `/`), the new path is `/` followed by the new name. */
  lemma RenameAtRoot<P, R>(engine: Engine<P, R>, rules: seq<CompiledRule<R>>, name: string)
    requires |name| > 0 && name[0] != '/'
    ensures Rename(engine, rules, SearchMatch(name, "/" + name)) == Candidate("/" + name, "/" + ApplyRules(engine, rules, name))
  {
    var path := "/" + name;
    assert path[1..1 + |name|] == name;
    assert !OccursAt(name, path, 0) by {
      assert path[0..|name|][0] == '/';
    }
    assert IsFirstOccurrence(name, path, 1);
    assert path[..1] == "/" && path[1 + |name|..] == "";
  }

  /** The filter step: the paths differ after lower-casing. */
  predicate IsRename(c: Candidate) {
    !EqualIgnoringCase(c.fromPath, c.toPath)
  }

  /** `filterMatches`: map every match through `Rename`, keep the
      candidates that change the path beyond letter case, in input order. */
  function FilterMatches<P, R>(engine: Engine<P, R>, rules: seq<CompiledRule<R>>, items: seq<SearchMatch>): (r: seq<Candidate>)
    ensures |r| <= |items|
    ensures forall c :: c in r ==> IsRename(c)
  {
    if items == [] then []
    else
      var c := Rename(engine, rules, items[0]);
      (if IsRename(c) then [c] else []) + FilterMatches(engine, rules, items[1..])
  }

  /** Filtering a concatenation filters each part on its own, so the output
      keeps the input order; this is also why filtering page by page and
      appending gives the same list as filtering all matches at once. */
  lemma {:induction false} FilterMatchesAppend<P, R>(engine: Engine<P, R>, rules: seq<CompiledRule<R>>, a: seq<SearchMatch>, b: seq<SearchMatch>)
    ensures FilterMatches(engine, rules, a + b) == FilterMatches(engine, rules, a) + FilterMatches(engine, rules, b)
  {
    if a == [] {
      assert a + b == b;
    } else {
      assert (a + b)[1..] == a[1..] + b;
      FilterMatchesAppend(engine, rules, a[1..], b);
    }
  }

  /** A candidate is in the output exactly when it is the mapped form of
      some input match and it changes the path beyond letter case. */
  lemma {:induction false} FilterMatchesMembers<P, R>(engine: Engine<P, R>, rules: seq<CompiledRule<R>>, items: seq<SearchMatch>, c: Candidate)
    ensures c in FilterMatches(engine, rules, items) <==>
      IsRename(c) && exists i :: 0 <= i < |items| && c == Rename(engine, rules, items[i])
  {
    if items != [] {
      FilterMatchesMembers(engine, rules, items[1..], c);
      if IsRename(c) && exists i :: 0 <= i < |items| && c == Rename(engine, rules, items[i]) {
        var i :| 0 <= i < |items| && c == Rename(engine, rules, items[i]);
        if i > 0 {
          assert c == Rename(engine, rules, items[1..][i - 1]);
        }
      }
      if c in FilterMatches(engine, rules, items[1..]) {
        var i :| 0 <= i < |items[1..]| && c == Rename(engine, rules, items[1..][i]);
        assert c == Rename(engine, rules, items[i + 1]);
      }
    }
  }

  /** A single match is dropped exactly when its new path equals its old
      path up to letter case. */
  lemma FilterMatchesDropsCaseOnly<P, R>(engine: Engine<P, R>, rules: seq<CompiledRule<R>>, m: SearchMatch)
    ensures FilterMatches(engine, rules, [m]) == [] <==>
      EqualIgnoringCase(m.pathDisplay, Rename(engine, rules, m).toPath)
  {
    assert [m][1..] == [];
  }

  /** A match whose rules change its name only in letter case (`.PNG` to
      `.png` alone) is never submitted, whatever its path. */
  lemma NameCaseOnlyDropped<P, R>(engine: Engine<P, R>, rules: seq<CompiledRule<R>>, m: SearchMatch)
    requires EqualIgnoringCase(m.name, ApplyRules(engine, rules, m.name))
    ensures FilterMatches(engine, rules, [m]) == []
  {
    ReplaceFirstKeepsCase(m.pathDisplay, m.name, ApplyRules(engine, rules, m.name));
    FilterMatchesDropsCaseOnly(engine, rules, m);
  }

  /** The match as the server shows it after its rename: the new name at
      the new path. This holds when the name's first occurrence in the path
      is its last segment; when the name first occurs in a parent folder
      (`a` at `/a/a`), the move changes that folder instead and the file
      keeps its old name. */
  function RenamedMatch<P, R>(engine: Engine<P, R>, rules: seq<CompiledRule<R>>, m: SearchMatch): SearchMatch {
    SearchMatch(ApplyRules(engine, rules, m.name), Rename(engine, rules, m).toPath)
  }

  /** The rules are idempotent on a name: applying them to their own
      output changes nothing. */
  ghost predicate StableOn<P, R>(engine: Engine<P, R>, rules: seq<CompiledRule<R>>, name: string) {
    var once := ApplyRules(engine, rules, name);
    ApplyRules(engine, rules, once) == once
  }

  /** Running the filter again on the renamed matches finds nothing to do,
      provided the rules are idempotent on every name involved. */
  lemma {:induction false} FilterMatchesIdempotent<P, R>(engine: Engine<P, R>, rules: seq<CompiledRule<R>>, items: seq<SearchMatch>)
    requires forall i :: 0 <= i < |items| ==> StableOn(engine, rules, items[i].name)
    ensures FilterMatches(engine, rules, seq(|items|, i requires 0 <= i < |items| => RenamedMatch(engine, rules, items[i]))) == []
  {
    var renamed := seq(|items|, i requires 0 <= i < |items| => RenamedMatch(engine, rules, items[i]));
    if items != [] {
      var tail := seq(|items| - 1, i requires 0 <= i < |items| - 1 => RenamedMatch(engine, rules, items[1..][i]));
      assert renamed[1..] == tail;
      FilterMatchesIdempotent(engine, rules, items[1..]);
      var again := renamed[0];
      ReplaceFirstBySelf(again.pathDisplay, again.name);
      assert Rename(engine, rules, again).toPath == again.pathDisplay;
    }
  }
}
