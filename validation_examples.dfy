/**
 * The validator model's verdict on concrete configurations: the cases of
 * tests/test_validations.py as they apply to `validate_boost_file` and
 * `validate_variables`, and two declarations that show how the self-reference check
 * of boostbuild/validations.py behaves. Every text is a parameter fixed by a
 * `requires`, so that each proof steps through the checks instead of unfolding them on
 * a literal.
 */
module ValidationExamples {
  import opened Text
  import opened Tree
  import opened Errors
  import opened Scanner
  import opened Builtins
  import opened Validations

  /** Target and variable names: `-` and `_` are allowed; `:`, `%` and digits are not,
      so `example2`, a target name the tests use with the separate checks, does not pass
      the name check of `validate_boost_file`. */
  lemma NameExamples(a: string, b: string, c: string, d: string, e: string)
    requires a == "example-" && b == "example_" && c == "example:" && d == "example%" && e == "example2"
    ensures Allowed(a, NameWhitelist) && Allowed(b, NameWhitelist)
    ensures !Allowed(c, NameWhitelist) && !Allowed(d, NameWhitelist) && !Allowed(e, NameWhitelist)
  {
    NameAllowedIff(a);
    NameAllowedIff(b);
    NameAllowedIff(c);
    NameAllowedIff(d);
    NameAllowedIff(e);
    assert !IsAsciiLetter(c[7]) && !IsAsciiLetter(d[7]) && !IsAsciiLetter(e[7]);
  }

  /** The first target whose name has a character outside the whitelist is reported. */
  lemma BadTargetNameExample(data: Value, bad: string, good: string)
    requires bad == "example%" && good == "example2"
    requires data == Dict([("boost", Dict([(bad, Str("")), (good, Str(""))]))])
    ensures BoostFileVerdict(data, "") == Fail(Plain(NotAllowedCharacters("target", bad, NameWhitelist)))
  {
    var entries := [(bad, Str("")), (good, Str(""))];
    assert Lookup(data.entries, "boost") == Some(Dict(entries));
    NameAllowedIff(bad);
    assert !IsAsciiLetter(bad[7]);
    FirstBadNameAt(Keys(entries), 0);
  }

  /** A configuration without a `boost` section: the empty mapping of the tests. */
  lemma MissingSectionExample(data: Value)
    requires data == Dict([])
    ensures BoostFileVerdict(data, "") == Fail(Plain(MissingBoostSection))
  {
    assert Keys(data.entries) == [];
  }

  /** A `boost` section holding the empty string is reported as empty; the shape check
      that the tests exercise on the same input is never reached. */
  lemma EmptySectionExample(data: Value)
    requires data == Dict([("boost", Str(""))])
    ensures BoostFileVerdict(data, "") == Fail(Plain(EmptyBoostSection))
  {
    assert Lookup(data.entries, "boost") == Some(Str(""));
  }

  /** Selecting a target: a named target that exists passes (its command has no
      placeholder), one that does not is reported as missing. */
  lemma TargetSelectionExample(data: Value, first: string, second: string, other: string)
    requires first == "build" && second == "example" && other == "asd"
    requires data == Dict([("boost", Dict([(first, Str("")), (second, Str(""))]))])
    ensures BoostFileVerdict(data, second) == Ok(data)
    ensures BoostFileVerdict(data, other) == Fail(Plain(MissingTarget(other)))
  {
    var entries := [(first, Str("")), (second, Str(""))];
    assert Lookup(data.entries, "boost") == Some(Dict(entries));
    NameAllowedIff(first);
    NameAllowedIff(second);
    assert Keys(entries) == [first, second];
    assert FirstBadName(Keys(entries)).None?;
    assert Lookup(entries, second) == Some(Str(""));
    NoOpenBraceNoVariables("");
    assert other !in Keys(entries) by {
      assert Keys(entries) == [first, second];
      assert other[0] != first[0] && other[0] != second[0];
    }
  }

  /** An `attributes` value that is not a string: a list, or `null`. */
  lemma AttributesFormatExamples(items: seq<Value>)
    requires items == [Str("example"), Str("example2")]
    ensures AttributesVerdict(List(items)) == Fail(Plain(BadFormatAttributes(List(items), AttributesKey)))
    ensures AttributesVerdict(Scalar(false)) == Fail(Plain(BadFormatAttributes(Scalar(false), AttributesKey)))
  {
  }

  /** Digits and `_` are not allowed in an `attributes` value. */
  lemma AttributesCharsExamples(digits: string, underscore: string)
    requires digits == "123" && underscore == "asd_asd"
    ensures AttributesVerdict(Str(digits))
      == Fail(Plain(NotAllowedCharacters(AttributesKey, digits, AttributesWhitelist)))
    ensures AttributesVerdict(Str(underscore))
      == Fail(Plain(NotAllowedCharacters(AttributesKey, underscore, AttributesWhitelist)))
  {
    AttributesAllowedIff(digits);
    assert !IsAsciiLetter(digits[0]);
    AttributesAllowedIff(underscore);
    assert !IsAsciiLetter(underscore[3]);
  }

  /** The empty string passes the character check but splits into one empty attribute,
      which is not supported. */
  lemma AttributesEmptyExample(empty: string)
    requires empty == ""
    ensures AttributesVerdict(Str(empty)) == Fail(Plain(UnsupportedVarAttribute(empty, AttributesKey)))
  {
    assert Split(empty, ',') == [empty];
    assert FirstUnsupported([empty]) == Some(empty);
  }

  /** Both supported attributes, comma separated. */
  lemma AttributesSupportedExample(secret: string, exec: string, both: string)
    requires secret == "secret" && exec == "exec" && both == secret + [','] + exec
    ensures AttributesVerdict(Str(both)) == Ok(())
  {
    AttributesAllowedIff(both);
    assert forall i :: 0 <= i < |both| ==> IsAsciiLetter(both[i]) || both[i] == ',';
    SplitPiece(secret, exec, ',');
    SplitPiece(exec, [], ',');
    assert Split(both, ',') == [secret, exec];
  }

  /** A variable whose value names itself is reported, with the caret on the placeholder. */
  lemma SelfReferenceExample(name: string, value: string, vs: seq<Value>)
    requires name == "a" && value == "{a}"
    requires vs == [Dict([(name, Str(value))])]
    ensures VariablesVerdict(vs, []) == Fail(Hinted(value, 0, SelfVarRequest(name)))
  {
    var entries := [(name, Str(value))];
    assert value == "{" + name + "}";
    MatchHere(value, 1, 2);
    assert FindVariablesIn(value) == [name];
    NameAllowedIff(name);
    assert Keys(entries) == [name];
    assert Declaring(vs, name, Dict(entries)) == Ok(Some(Dict(entries)));
    assert ValueUnder(entries, name) == Some(Str(value));
    assert OccursAt(value, "{" + name + "}", 0);
    assert IndexOf(value, "{" + name + "}") == Some(0);
  }

  /** The generator at boostbuild/validations.py:145-147 yields the declaration being
      checked, not the one that declares the placeholder. Once a first placeholder has
      put the current declaration into `checked_vars`, a later placeholder naming the
      variable itself is skipped, so this self reference is accepted. */
  lemma SelfReferenceAfterOtherExample(a: string, b: string, value: string, vs: seq<Value>)
    requires a == "a" && b == "b" && value == "{b}{a}"
    requires vs == [Dict([(a, Str(value))]), Dict([(b, Str("x"))])]
    ensures VariablesVerdict(vs, []) == Ok(())
  {
    var e0, e1 := [(a, Str(value))], [(b, Str("x"))];
    TwoPlaceholders(a, b, value);
    SkippedSelfReference(a, b, value, vs);
    NoOpenBraceNoVariables("x");
    NameAllowedIff(a);
    NameAllowedIff(b);
    var st0 := Scan([], []);
    var st1 := Scan([], [Some(Dict(e0))]);
    assert Pop([], a) == [];
    assert CheckItems(vs, e0, 1, true, st1) == Ok(st1);
    assert CheckItems(vs, e0, 0, false, st0) == Ok(st1);
    assert CheckItems(vs, e1, 0, false, st1) == Ok(st1);
    assert CheckDecls(vs, 2, st1) == Ok(st1);
    assert CheckDecls(vs, 1, st1) == Ok(st1);
    assert CheckDecls(vs, 0, st0) == Ok(st1);
  }

  lemma TwoPlaceholders(a: string, b: string, value: string)
    requires a == "a" && b == "b" && value == "{b}{a}"
    ensures FindVariablesIn(value) == [b, a]
  {
    MatchHere(value, 1, 2);
    SkipPlain(value, 2, 4);
    MatchHere(value, 4, 5);
    SkipPlain(value, 5, 6);
    assert Spans(value, 0, false) == [(1, 2), (4, 5)];
    assert value[1..2] == b && value[4..5] == a;
  }

  /** The first placeholder records the current declaration as checked; the second,
      the variable itself, then finds it checked already. */
  lemma SkippedSelfReference(a: string, b: string, value: string, vs: seq<Value>)
    requires a == "a" && b == "b" && value == "{b}{a}"
    requires vs == [Dict([(a, Str(value))]), Dict([(b, Str("x"))])]
    ensures CheckRefs(vs, [(a, Str(value))], a, value, [b, a], 0, []) == Ok([Some(Dict([(a, Str(value))]))])
  {
    var e0, e1 := [(a, Str(value))], [(b, Str("x"))];
    assert Keys(e0) == [a] && Keys(e1) == [b];
    assert PyIn(b, vs[0]) == Ok(false);
    assert Declaring(vs, b, Dict(e0)) == Ok(Some(Dict(e0)));
    assert ValueUnder(e0, b) == None;
    assert Declaring(vs, a, Dict(e0)) == Ok(Some(Dict(e0)));
    var refs, done := [b, a], [Some(Dict(e0))];
    assert CheckRefs(vs, e0, a, value, refs, 2, done) == Ok(done);
    assert Some(Dict(e0)) in done;
    assert CheckRefs(vs, e0, a, value, refs, 1, done) == Ok(done);
    assert refs[0] == b && refs[1] == a;
    var none: seq<Option<Value>> := [];
    assert none + [Some(Dict(e0))] == done;
    assert CheckRefs(vs, e0, a, value, refs, 0, none) == CheckRefs(vs, e0, a, value, refs, 1, done);
  }
}
