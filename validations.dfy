/**
 * The structural validator of boostbuild/validations.py, applied to an already loaded
 * configuration. Every check returns early: the first one that fails decides the error
 * string, and Python exceptions raised on malformed values propagate to the caller.
 */
module Validations {
  import opened Text
  import opened Tree
  import opened Errors
  import opened Scanner
  import opened Builtins

  // ---------------------------------------------------------------------------------
  // Whitelists and supported attributes

  /** The `n` consecutive characters starting at `lo`. */
  function CharRun(lo: char, n: nat): (s: string)
    requires lo as int + n <= 0xD800
  {
    seq(n, i requires 0 <= i < n => (lo as int + i) as char)
  }

  /** `string.ascii_letters`: `a` to `z`, then `A` to `Z`. */
  const AsciiLetters: string := CharRun('a', 26) + CharRun('A', 26)

  /** The characters allowed in target and variable names. */
  const NameWhitelist: string := AsciiLetters + "_-"

  /** The characters allowed in an `attributes` value. */
  const AttributesWhitelist: string := AsciiLetters + ","

  /** The attributes a variable may carry. */
  const SupportedAttributes: seq<string> := ["secret", "exec"]

  /** The key under which a variable declaration lists its attributes. */
  const AttributesKey: string := "attributes"

  predicate IsAsciiLetter(c: char)
  {
    'a' <= c <= 'z' || 'A' <= c <= 'Z'
  }

  /** No character of `s` is missing from `whitelist` (the negation of the `any(...)` tests). */
  predicate Allowed(s: string, whitelist: string)
  {
    forall i :: 0 <= i < |s| ==> s[i] in whitelist
  }

  lemma AsciiLettersMembership(c: char)
    ensures c in AsciiLetters <==> IsAsciiLetter(c)
  {
    var lower, upper := CharRun('a', 26), CharRun('A', 26);
    assert AsciiLetters == lower + upper;
    if 'a' <= c <= 'z' {
      assert AsciiLetters[c as int - 'a' as int] == c;
    } else if 'A' <= c <= 'Z' {
      assert AsciiLetters[26 + (c as int - 'A' as int)] == c;
    }
    if c in AsciiLetters {
      var i :| 0 <= i < 52 && AsciiLetters[i] == c;
      if i < 26 {
        assert lower[i] == c;
      } else {
        assert upper[i - 26] == c;
      }
    }
  }

  /** A target or variable name passes the character check exactly when it is made of
      ASCII letters, `_` and `-`. */
  lemma NameAllowedIff(s: string)
    ensures Allowed(s, NameWhitelist) <==>
      forall i :: 0 <= i < |s| ==> IsAsciiLetter(s[i]) || s[i] == '_' || s[i] == '-'
  {
    forall c: char
      ensures c in NameWhitelist <==> IsAsciiLetter(c) || c == '_' || c == '-'
    {
      AsciiLettersMembership(c);
    }
  }

  /** An `attributes` value passes the character check exactly when it is made of ASCII
      letters and commas. */
  lemma AttributesAllowedIff(s: string)
    ensures Allowed(s, AttributesWhitelist) <==>
      forall i :: 0 <= i < |s| ==> IsAsciiLetter(s[i]) || s[i] == ','
  {
    forall c: char
      ensures c in AttributesWhitelist <==> IsAsciiLetter(c) || c == ','
    {
      AsciiLettersMembership(c);
    }
  }

  /** The first name, in order, that fails the character check (the loop at :61). */
  function FirstBadName(names: seq<string>): (r: Option<string>)
    ensures r.None? <==> forall i :: 0 <= i < |names| ==> Allowed(names[i], NameWhitelist)
    ensures r.Some? ==> !Allowed(r.value, NameWhitelist)
    ensures r.Some? ==> exists i :: (0 <= i < |names| && names[i] == r.value
      && forall j :: 0 <= j < i ==> Allowed(names[j], NameWhitelist))
  {
    if names == [] then None
    else if !Allowed(names[0], NameWhitelist) then Some(names[0])
    else
      var r := FirstBadName(names[1..]);
      if r.Some? then
        var i :| 0 <= i < |names[1..]| && names[1..][i] == r.value
          && forall j :: 0 <= j < i ==> Allowed(names[1..][j], NameWhitelist);
        assert names[i + 1] == r.value;
        r
      else r
  }

  /** The first bad name is the one the loop at :61 stops at. */
  lemma {:induction false} FirstBadNameAt(names: seq<string>, t: nat)
    requires t < |names| && !Allowed(names[t], NameWhitelist)
    requires forall j :: 0 <= j < t ==> Allowed(names[j], NameWhitelist)
    ensures FirstBadName(names) == Some(names[t])
  {
    if t > 0 {
      FirstBadNameAt(names[1..], t - 1);
    }
  }

  // ---------------------------------------------------------------------------------
  // validate_boost_target

  /** `validate_boost_target`: the selector itself, or the first target when it is empty. */
  function SelectTarget(targets: seq<(string, Value)>, selector: string): (t: string)
    requires selector != "" || |targets| > 0
    ensures selector != "" ==> t == selector
    ensures selector == "" ==> t in Keys(targets) && t == Keys(targets)[0]
  {
    if selector != "" then selector else targets[0].0
  }

  // ---------------------------------------------------------------------------------
  // get_required_vars_dict

  /** Where a variable is required: the target and the command line using it. */
  datatype Origin = Origin(target: string, line: string)

  /** A Python dict from variable names to origins, in insertion order. */
  type VarDict = seq<(string, Origin)>

  /** The keys of a dictionary, in insertion order. */
  function DictKeys(d: VarDict): (ks: seq<string>)
    ensures |ks| == |d| && forall i :: 0 <= i < |d| ==> ks[i] == d[i].0
  {
    if d == [] then [] else [d[0].0] + DictKeys(d[1..])
  }

  /** `d.get(k)`. */
  function Get(d: VarDict, k: string): Option<Origin>
  {
    if d == [] then None
    else if d[0].0 == k then Some(d[0].1)
    else Get(d[1..], k)
  }

  /** `d[k] = o`: replaces the value in place when the key exists, appends otherwise. */
  function Put(d: VarDict, k: string, o: Origin): VarDict
  {
    if d == [] then [(k, o)]
    else if d[0].0 == k then [(k, o)] + d[1..]
    else [d[0]] + Put(d[1..], k, o)
  }

  /** `d.pop(k, None)`. */
  function Pop(d: VarDict, k: string): VarDict
  {
    if d == [] then []
    else if d[0].0 == k then Pop(d[1..], k)
    else [d[0]] + Pop(d[1..], k)
  }

  /** A key is present exactly when it is among the keys. */
  lemma {:induction false} GetKeys(d: VarDict, k: string)
    ensures Get(d, k).None? <==> k !in DictKeys(d)
    ensures Get(d, k).Some? ==> (k, Get(d, k).value) in d
  {
    if d != [] && d[0].0 != k {
      GetKeys(d[1..], k);
    }
  }

  /** After `d[k] = o`, `k` maps to `o` and every other key is untouched. */
  lemma {:induction false} PutGet(d: VarDict, k: string, o: Origin, k': string)
    ensures Get(Put(d, k, o), k') == if k' == k then Some(o) else Get(d, k')
  {
    if d != [] && d[0].0 != k {
      PutGet(d[1..], k, o, k');
      assert Put(d, k, o)[1..] == Put(d[1..], k, o);
    } else if d != [] {
      assert Put(d, k, o)[1..] == d[1..];
    }
  }

  /** The keys keep their first-insertion order: assigning an existing key does not move
      it, assigning a new one appends it. */
  lemma {:induction false} PutKeys(d: VarDict, k: string, o: Origin)
    ensures k in DictKeys(d) ==> DictKeys(Put(d, k, o)) == DictKeys(d)
    ensures k !in DictKeys(d) ==> DictKeys(Put(d, k, o)) == DictKeys(d) + [k]
  {
    if d != [] && d[0].0 != k {
      assert Put(d, k, o)[1..] == Put(d[1..], k, o);
      PutKeys(d[1..], k, o);
    } else if d != [] {
      assert Put(d, k, o)[1..] == d[1..];
    }
  }

  /** After `d.pop(k, None)`, `k` is absent and every other key is untouched. */
  lemma {:induction false} PopGet(d: VarDict, k: string, k': string)
    ensures Get(Pop(d, k), k') == if k' == k then None else Get(d, k')
  {
    if d != [] {
      PopGet(d[1..], k, k');
      if d[0].0 != k {
        assert Pop(d, k)[1..] == Pop(d[1..], k);
      }
    }
  }

  /** Each name paired with the same origin, in order. */
  function Tag(names: seq<string>, o: Origin): (occ: seq<(string, Origin)>)
  {
    if names == [] then [] else Tag(names[..|names| - 1], o) + [(names[|names| - 1], o)]
  }

  /** The (variable, origin) pairs of one command line, in order. */
  function LineOccurrences(target: string, line: string): seq<(string, Origin)>
  {
    Tag(FindVariablesIn(line), Origin(target, line))
  }

  /** The pairs of the first lines of a target, in order. */
  function LinesOccurrences(target: string, lines: seq<string>): seq<(string, Origin)>
  {
    if lines == [] then []
    else LinesOccurrences(target, lines[..|lines| - 1]) + LineOccurrences(target, lines[|lines| - 1])
  }

  /** The command lines of a target's text. */
  function CommandLines(text: string): seq<string>
  {
    Split(Strip(text), '\n')
  }

  /** The pairs of the first targets, in the order the loops at :211-215 visit them;
      `strip()` on a value that is not a string raises. */
  function Occurrences(targets: seq<(string, Value)>): (r: Outcome<seq<(string, Origin)>>)
    ensures r.Ok? || r == Raise(AttributeError)
  {
    if targets == [] then Ok([])
    else
      var prev :- Occurrences(targets[..|targets| - 1]);
      var last := targets[|targets| - 1];
      var text :- StripValue(last.1);
      Ok(prev + LinesOccurrences(last.0, Split(text, '\n')))
  }

  /** The dictionary built by assigning the pairs one after the other. */
  function Assign(occ: seq<(string, Origin)>): VarDict
  {
    if occ == [] then [] else Put(Assign(occ[..|occ| - 1]), occ[|occ| - 1].0, occ[|occ| - 1].1)
  }

  /** `get_required_vars_dict`, given the entries of the `boost` section. */
  function RequiredVarsOf(targets: seq<(string, Value)>): Outcome<VarDict>
  {
    var occ :- Occurrences(targets);
    Ok(Assign(occ))
  }

  lemma {:induction false} OccurrencesRaise(targets: seq<(string, Value)>, t: nat)
    requires t < |targets| && !targets[t].1.Str?
    ensures Occurrences(targets) == Raise(AttributeError)
    decreases |targets|
  {
    var prefix := targets[..|targets| - 1];
    if t < |targets| - 1 {
      assert prefix[t] == targets[t];
      OccurrencesRaise(prefix, t);
    } else {
      assert StripValue(targets[|targets| - 1].1) == Raise(AttributeError);
    }
  }

  lemma AssignStep(occ: seq<(string, Origin)>, name: string, o: Origin)
    ensures Assign(occ + [(name, o)]) == Put(Assign(occ), name, o)
  {
    assert (occ + [(name, o)])[..|occ|] == occ;
  }

  lemma LinesStep(target: string, lines: seq<string>, l: nat)
    requires l < |lines|
    ensures LinesOccurrences(target, lines[..l + 1])
      == LinesOccurrences(target, lines[..l]) + LineOccurrences(target, lines[l])
  {
    assert lines[..l + 1][..l] == lines[..l];
  }

  lemma OccurrencesStep(targets: seq<(string, Value)>, t: nat, occ: seq<(string, Origin)>)
    requires t < |targets| && targets[t].1.Str?
    requires Occurrences(targets[..t]) == Ok(occ)
    ensures Occurrences(targets[..t + 1])
      == Ok(occ + LinesOccurrences(targets[t].0, CommandLines(targets[t].1.s)))
  {
    assert targets[..t + 1][..t] == targets[..t];
  }

  /** The innermost loop of `get_required_vars_dict` (:214-215): assigns every
      placeholder of one command line, in order. */
  method AssignLine(variables0: VarDict, ghost done0: seq<(string, Origin)>, target: string, line: string)
    returns (variables: VarDict)
    requires variables0 == Assign(done0)
    ensures variables == Assign(done0 + LineOccurrences(target, line))
  {
    variables := variables0;
    var names := FindVariablesIn(line);
    var origin := Origin(target, line);
    ghost var done := done0;
    assert names[..0] == [];
    for n := 0 to |names|
      invariant done == done0 + Tag(names[..n], origin)
      invariant variables == Assign(done)
    {
      AssignStep(done, names[n], origin);
      assert names[..n + 1][..n] == names[..n];
      done := done + [(names[n], origin)];
      variables := Put(variables, names[n], origin);
    }
    assert names[..|names|] == names;
  }

  /** The middle loop (:213-215): assigns the placeholders of every line of one target. */
  method AssignLines(variables0: VarDict, ghost done0: seq<(string, Origin)>, target: string, lines: seq<string>)
    returns (variables: VarDict)
    requires variables0 == Assign(done0)
    ensures variables == Assign(done0 + LinesOccurrences(target, lines))
  {
    variables := variables0;
    ghost var done := done0;
    assert lines[..0] == [];
    for l := 0 to |lines|
      invariant done == done0 + LinesOccurrences(target, lines[..l])
      invariant variables == Assign(done)
    {
      variables := AssignLine(variables, done, target, lines[l]);
      LinesStep(target, lines, l);
      done := done + LineOccurrences(target, lines[l]);
    }
    assert lines[..|lines|] == lines;
  }

  /** `get_required_vars_dict`: visits every target of the `boost` section, strips and
      splits its text into lines, and assigns each placeholder its target and line. */
  method GetRequiredVarsDict(targets: seq<(string, Value)>) returns (r: Outcome<VarDict>)
    ensures r == RequiredVarsOf(targets)
  {
    var variables: VarDict := [];
    ghost var done: seq<(string, Origin)> := [];
    for t := 0 to |targets|
      invariant Occurrences(targets[..t]) == Ok(done)
      invariant variables == Assign(done)
    {
      var (target, commands) := targets[t];
      if !commands.Str? {
        OccurrencesRaise(targets, t);
        return Raise(AttributeError);
      }
      var lines := Split(Strip(commands.s), '\n');
      variables := AssignLines(variables, done, target, lines);
      OccurrencesStep(targets, t, done);
      done := done + LinesOccurrences(target, lines);
    }
    assert targets[..|targets|] == targets;
    return Ok(variables);
  }

  // ---------------------------------------------------------------------------------
  // validate_variables

  /** `attrs[i]` is not supported and every attribute before it is. */
  predicate FirstUnsupportedAt(attrs: seq<string>, i: int)
  {
    0 <= i < |attrs| && attrs[i] !in SupportedAttributes
    && forall j :: 0 <= j < i ==> attrs[j] in SupportedAttributes
  }

  /** The first attribute, in order, that is not supported (the loop at :124-126). */
  function FirstUnsupported(attrs: seq<string>): (r: Option<string>)
    ensures r.None? <==> forall i :: 0 <= i < |attrs| ==> attrs[i] in SupportedAttributes
    ensures r.Some? ==> r.value in attrs && r.value !in SupportedAttributes
    ensures r.Some? ==> exists i :: FirstUnsupportedAt(attrs, i) && attrs[i] == r.value
  {
    if attrs == [] then None
    else if attrs[0] !in SupportedAttributes then Some(attrs[0])
    else FirstUnsupported(attrs[1..])
  }

  /** The checks of an `attributes` entry (:111-127). The format arguments name the
      variable `attributes`, which is what the loop variable holds at that point. */
  function AttributesVerdict(value: Value): (r: Outcome<()>)
    ensures !value.Str? ==> r == Fail(Plain(BadFormatAttributes(value, AttributesKey)))
    ensures value.Str? && !Allowed(value.s, AttributesWhitelist) ==>
      r == Fail(Plain(NotAllowedCharacters(AttributesKey, value.s, AttributesWhitelist)))
  {
    if !value.Str? then Fail(Plain(BadFormatAttributes(value, AttributesKey)))
    else if !Allowed(value.s, AttributesWhitelist) then
      Fail(Plain(NotAllowedCharacters(AttributesKey, value.s, AttributesWhitelist)))
    else
      var attrs := Split(value.s, ',');
      match FirstUnsupported(attrs)
      case Some(a) =>
        assert !(forall i :: 0 <= i < |attrs| ==> attrs[i] in SupportedAttributes);
        Fail(Plain(UnsupportedVarAttribute(a, AttributesKey)))
      case None => Ok(())
  }

  /** An `attributes` value passes exactly when it is a string of whitelisted characters
      whose comma-separated parts are all supported, and an unsupported-attribute error
      names the first of those parts that is not supported. */
  lemma AttributesVerdictIff(value: Value)
    ensures AttributesVerdict(value).Ok? ==>
      (value.Str? && Allowed(value.s, AttributesWhitelist)
       && forall i :: 0 <= i < |Split(value.s, ',')| ==> Split(value.s, ',')[i] in SupportedAttributes)
    ensures (value.Str? && Allowed(value.s, AttributesWhitelist)
             && forall i :: 0 <= i < |Split(value.s, ',')| ==> Split(value.s, ',')[i] in SupportedAttributes) ==>
      AttributesVerdict(value).Ok?
    ensures var r := AttributesVerdict(value);
      r.Fail? && r.failure.Plain? && r.failure.msg.UnsupportedVarAttribute? ==>
        (value.Str? && exists i :: FirstUnsupportedAt(Split(value.s, ','), i)
                                 && Split(value.s, ',')[i] == r.failure.msg.attribute)
  {
  }

  /** `build_error_hinting(v, v.index("{" + name + "}"), msg)` on a value that may not be
      a string: a list has `index` but no `strip`, a mapping or a scalar has neither. */
  function HintAt(v: Value, name: string, msg: Message): (r: Outcome<()>)
    ensures r.IsFailure()
    ensures r.Fail? <==> v.Str? && Occurs("{" + name + "}", v.s)
    ensures r.Fail? ==>
      (r.failure.Hinted? && r.failure.text == v.s && r.failure.msg == msg
       && OccursAt(v.s, "{" + name + "}", r.failure.position))
  {
    match v
    case Str(s) =>
      (match IndexOf(s, "{" + name + "}")
       case Some(p) => Fail(Hinted(s, p, msg))
       case None => Raise(ValueError))
    case List(items) => if Str("{" + name + "}") in items then Raise(AttributeError) else Raise(ValueError)
    case _ => Raise(AttributeError)
  }

  /** The generator at :145-147: it yields the declaration being checked, `current`, as
      soon as some declaration contains `name`; `None` when none does. */
  function Declaring(vs: seq<Value>, name: string, current: Value): (r: Outcome<Option<Value>>)
    ensures !r.Fail?
    ensures r.Ok? && r.value.Some? ==>
      (r.value.value == current && exists j :: 0 <= j < |vs| && PyIn(name, vs[j]) == Ok(true))
    ensures r == Ok(None) ==> forall j :: 0 <= j < |vs| ==> PyIn(name, vs[j]) == Ok(false)
  {
    if vs == [] then Ok(None)
    else
      var has :- PyIn(name, vs[0]);
      if has then Ok(Some(current))
      else
        var r := Declaring(vs[1..], name, current);
        assert r.Ok? && r.value.Some? ==> exists j :: 0 <= j < |vs[1..]| && PyIn(name, vs[1..][j]) == Ok(true);
        assert r.Ok? && r.value.Some? ==> exists j :: 0 <= j < |vs| && PyIn(name, vs[j]) == Ok(true);
        r
  }

  /** The first value stored under `name` in a declaration (the loop at :161-162). */
  function ValueUnder(entries: seq<(string, Value)>, name: string): (r: Option<Value>)
    ensures r.Some? ==> (name, r.value) in entries
    ensures r.None? ==> name !in Keys(entries)
  {
    if entries == [] then None
    else if entries[0].0 == name then Some(entries[0].1)
    else
      assert Keys(entries) == [entries[0].0] + Keys(entries[1..]);
      ValueUnder(entries[1..], name)
  }

  /** The error strings `validate_variables` can return: hinted errors, and the plain
      messages about keys, variable names and attributes. None of them is one of the
      messages `validate_boost_file` produces itself. */
  predicate VariablesFailure(f: Failure)
  {
    || f.Hinted?
    || (f.Plain? && (f.msg.UnknownKey? || f.msg.BadFormatAttributes? || f.msg.UnsupportedVarAttribute?
                     || (f.msg.NotAllowedCharacters? && f.msg.kind != "target")))
  }

  /** The state `validate_variables` carries across declarations: the required variables
      not yet declared, and the declarations already checked for self reference. */
  datatype Scan = Scan(required: VarDict, checked: seq<Option<Value>>)

  /** The loop over the placeholders of one variable value (:144-167), from the `k`-th on.
      `entries` is the declaration being checked, `name` its variable. */
  function CheckRefs(vs: seq<Value>, entries: seq<(string, Value)>, name: string, value: string,
                     refs: seq<string>, k: nat, checked: seq<Option<Value>>): (r: Outcome<seq<Option<Value>>>)
    requires k <= |refs|
    decreases |refs| - k
    ensures r.Fail? ==> VariablesFailure(r.failure)
  {
    if k == |refs| then Ok(checked)
    else
      var rvar := refs[k];
      var found :- Declaring(vs, rvar, Dict(entries));
      if found in checked then CheckRefs(vs, entries, name, value, refs, k + 1, checked)
      else if found.None? then
        HintAt(Str(value), rvar, MissingVariable(rvar, "variable", name)).PropagateFailure()
      else match ValueUnder(entries, rvar)
        case Some(v) => HintAt(v, rvar, SelfVarRequest(rvar)).PropagateFailure()
        case None => CheckRefs(vs, entries, name, value, refs, k + 1, checked + [found])
  }

  /** The loop over the entries of one declaration (:110-169), from the `j`-th on;
      `single` is `single_key_found`. */
  function CheckItems(vs: seq<Value>, entries: seq<(string, Value)>, j: nat, single: bool, st: Scan): (r: Outcome<Scan>)
    requires j <= |entries|
    decreases |entries| - j
    ensures r.Fail? ==> VariablesFailure(r.failure)
  {
    if j == |entries| then Ok(st)
    else
      var (key, value) := entries[j];
      if key == AttributesKey then
        var _ :- AttributesVerdict(value);
        CheckItems(vs, entries, j + 1, single, st)
      else if single then Fail(Plain(UnknownKey(key)))
      else if !Allowed(key, NameWhitelist) then
        Fail(Plain(NotAllowedCharacters("variable", key, NameWhitelist)))
      else
        var required := Pop(st.required, key);
        var refs :- FindAll(value);
        var checked :- CheckRefs(vs, entries, key, value.s, refs, 0, st.checked);
        CheckItems(vs, entries, j + 1, true, Scan(required, checked))
  }

  /** The loop over the declarations (:108-169), from the `i`-th on. */
  function CheckDecls(vs: seq<Value>, i: nat, st: Scan): (r: Outcome<Scan>)
    requires i <= |vs|
    decreases |vs| - i
    ensures r.Fail? ==> VariablesFailure(r.failure)
  {
    if i == |vs| then Ok(st)
    else
      var entries :- Items(vs[i]);
      var st' :- CheckItems(vs, entries, 0, false, st);
      CheckDecls(vs, i + 1, st')
  }

  /** `validate_variables(variables, boost_data)`, given the entries of the `boost`
      section: `Ok(())` is the empty string returned when everything is in order. */
  function VariablesVerdict(vs: seq<Value>, targets: seq<(string, Value)>): (r: Outcome<()>)
    ensures r.Fail? ==> VariablesFailure(r.failure)
  {
    var required :- RequiredVarsOf(targets);
    var fin :- CheckDecls(vs, 0, Scan(required, []));
    if fin.required == [] then Ok(())
    else
      var (v, o) := fin.required[0];
      HintAt(Str(o.line), v, MissingVariable(v, "target", o.target))
  }

  /** The loop over the placeholders of one variable value (:144-167); `checked` is
      `checked_vars`. */
  method CheckReferences(vs: seq<Value>, entries: seq<(string, Value)>, name: string, value: string,
                         refs: seq<string>, checked0: seq<Option<Value>>)
    returns (r: Outcome<seq<Option<Value>>>)
    ensures r == CheckRefs(vs, entries, name, value, refs, 0, checked0)
  {
    var checked := checked0;
    for k := 0 to |refs|
      invariant CheckRefs(vs, entries, name, value, refs, k, checked)
        == CheckRefs(vs, entries, name, value, refs, 0, checked0)
    {
      var rvar := refs[k];
      var found :- Declaring(vs, rvar, Dict(entries));
      if found !in checked {
        checked := checked + [found];
        if found.None? {
          var hint := HintAt(Str(value), rvar, MissingVariable(rvar, "variable", name));
          return hint.PropagateFailure();
        }
        var own := ValueUnder(entries, rvar);
        if own.Some? {
          var hint := HintAt(own.value, rvar, SelfVarRequest(rvar));
          return hint.PropagateFailure();
        }
      }
    }
    return Ok(checked);
  }

  /** The loop over the entries of one declaration (:110-169), with the flag
      `single_key_found`, the `pop` at :140 and the appends to `checked_vars`. */
  method CheckDeclaration(vs: seq<Value>, entries: seq<(string, Value)>, st0: Scan) returns (r: Outcome<Scan>)
    ensures r == CheckItems(vs, entries, 0, false, st0)
  {
    var single := false;
    var required := st0.required;
    var checked := st0.checked;
    for j := 0 to |entries|
      invariant CheckItems(vs, entries, j, single, Scan(required, checked))
        == CheckItems(vs, entries, 0, false, st0)
    {
      var (key, value) := entries[j];
      if key == AttributesKey {
        var _ :- AttributesVerdict(value);
      } else if single {
        return Fail(Plain(UnknownKey(key)));
      } else if !Allowed(key, NameWhitelist) {
        return Fail(Plain(NotAllowedCharacters("variable", key, NameWhitelist)));
      } else {
        single := true;
        required := Pop(required, key);
        var refs :- FindAll(value);
        checked :- CheckReferences(vs, entries, key, value.s, refs, checked);
      }
    }
    return Ok(Scan(required, checked));
  }

  /** `validate_variables`: computes the required variables, checks every declaration in
      order, and reports the first required variable no declaration removed. */
  method ValidateVariables(vs: seq<Value>, targets: seq<(string, Value)>) returns (r: Outcome<()>)
    ensures r == VariablesVerdict(vs, targets)
  {
    var required :- GetRequiredVarsDict(targets);
    var st := Scan(required, []);
    for i := 0 to |vs|
      invariant CheckDecls(vs, i, st) == CheckDecls(vs, 0, Scan(required, []))
    {
      var entries :- Items(vs[i]);
      st :- CheckDeclaration(vs, entries, st);
    }
    if st.required != [] {
      var (v, o) := st.required[0];
      return HintAt(Str(o.line), v, MissingVariable(v, "target", o.target));
    }
    return Ok(());
  }

  // ---------------------------------------------------------------------------------
  // validate_boost_file

  /** The `boost` section of a loaded file, when the file is a mapping that has one. */
  function BoostOf(data: Value): Option<Value>
  {
    if data.Dict? then Lookup(data.entries, "boost") else None
  }

  /** `validate_boost_file(boost_file, boost_target)` after the file has been found and
      loaded into `data`: `Ok(data)` when the file is valid, otherwise the first check
      that fails, in the order of :53-88. */
  function BoostFileVerdict(data: Value, selector: string): (r: Outcome<Value>)
    ensures r == Fail(Plain(MissingBoostSection)) <==> PyIn("boost", data) == Ok(false)
    ensures BoostOf(data).Some? ==> r == SectionVerdict(data, BoostOf(data).value, selector)
    ensures BoostOf(data).None? ==> r.IsFailure()
  {
    var hasBoost :- PyIn("boost", data);
    if !hasBoost then Fail(Plain(MissingBoostSection))
    else
      var boost :- PyGetItem(data, "boost");
      SectionVerdict(data, boost, selector)
  }

  /** The checks of `validate_boost_file` on the `boost` section (:56-90): emptiness, the
      target names, the shape of the section, then the selected target. The shape check
      comes after the loop over `boost.items()`, so a section that is not a mapping
      raises there and the shape check never fails. */
  function SectionVerdict(data: Value, boost: Value, selector: string): (r: Outcome<Value>)
    ensures r == Fail(Plain(EmptyBoostSection)) <==> !Truthy(boost)
    ensures Truthy(boost) && !boost.Dict? ==> r == Raise(AttributeError)
    ensures r != Fail(Plain(BadFormatBoostSection)) && r != Fail(Plain(MissingBoostSection))
    ensures boost.Dict? && Truthy(boost) && FirstBadName(Keys(boost.entries)).Some? ==>
      r == Fail(Plain(NotAllowedCharacters("target", FirstBadName(Keys(boost.entries)).value, NameWhitelist)))
    ensures r.Fail? && r.failure.Plain? && r.failure.msg.MissingTarget? ==>
      (boost.Dict? && FirstBadName(Keys(boost.entries)).None?
       && selector != "" && r.failure.msg.target == selector && selector !in Keys(boost.entries))
    ensures r.Ok? ==>
      (r.value == data && boost.Dict? && boost.entries != []
       && FirstBadName(Keys(boost.entries)).None?
       && SelectTarget(boost.entries, selector) in Keys(boost.entries))
  {
    if !Truthy(boost) then Fail(Plain(EmptyBoostSection))
    else
      var targets :- Items(boost);
      match FirstBadName(Keys(targets))
      case Some(t) => Fail(Plain(NotAllowedCharacters("target", t, NameWhitelist)))
      case None =>
        if !boost.Dict? then Fail(Plain(BadFormatBoostSection))
        else TargetVerdict(data, targets, selector)
  }

  /** The checks of `validate_boost_file` after the `boost` section has been found to be
      a non-empty mapping with well-formed target names (:71-90). */
  function TargetVerdict(data: Value, targets: seq<(string, Value)>, selector: string): (r: Outcome<Value>)
    requires targets != []
    ensures r.Fail? ==>
      || (r.failure == Plain(MissingTarget(selector)) && selector != "" && selector !in Keys(targets))
      || r.failure == Plain(BadFormatVarsSection)
      || VariablesFailure(r.failure)
    ensures r.Ok? ==> r.value == data && SelectTarget(targets, selector) in Keys(targets)
    ensures var text := Lookup(targets, SelectTarget(targets, selector));
      text.Some? && text.value.Str? && FindVariablesIn(text.value.s) == [] ==> r == Ok(data)
    ensures var text := Lookup(targets, SelectTarget(targets, selector));
      text.Some? && !text.value.Str? ==> r == Raise(TypeError)
    ensures var text := Lookup(targets, SelectTarget(targets, selector));
      text.Some? && text.value.Str? && FindVariablesIn(text.value.s) != [] && data.Dict? ==>
        && ("vars" !in Keys(data.entries) ==> r == Raise(KeyError("vars")))
        && (Lookup(data.entries, "vars").Some? && !Lookup(data.entries, "vars").value.List? ==>
              r == Fail(Plain(BadFormatVarsSection)))
        && (Lookup(data.entries, "vars").Some? && Lookup(data.entries, "vars").value.List? ==>
              (r.Ok? <==> VariablesVerdict(Lookup(data.entries, "vars").value.items, targets) == Ok(())))
  {
    var target := SelectTarget(targets, selector);
    if target !in Keys(targets) then Fail(Plain(MissingTarget(target)))
    else
      var text := Lookup(targets, target).value;
      var placeholders :- FindAll(text);
      if placeholders == [] then Ok(data)
      else
        var variables :- PyGetItem(data, "vars");
        if !variables.List? then Fail(Plain(BadFormatVarsSection))
        else
          var _ :- VariablesVerdict(variables.items, targets);
          Ok(data)
  }

  /** The character loop over the targets at :61-65: the first target name with a
      character outside the whitelist. */
  method CheckTargetNames(targets: seq<(string, Value)>) returns (bad: Option<string>)
    ensures bad == FirstBadName(Keys(targets))
  {
    var names := Keys(targets);
    for t := 0 to |targets|
      invariant forall j :: 0 <= j < t ==> Allowed(names[j], NameWhitelist)
    {
      if !Allowed(targets[t].0, NameWhitelist) {
        FirstBadNameAt(names, t);
        return Some(targets[t].0);
      }
    }
    return None;
  }

  /** `validate_boost_file` after loading: the early returns of :53-88 in order. */
  method ValidateBoostFile(data: Value, selector: string) returns (r: Outcome<Value>)
    ensures r == BoostFileVerdict(data, selector)
  {
    var hasBoost :- PyIn("boost", data);
    if !hasBoost {
      return Fail(Plain(MissingBoostSection));
    }
    var boost :- PyGetItem(data, "boost");
    if !Truthy(boost) {
      return Fail(Plain(EmptyBoostSection));
    }
    var targets :- Items(boost);
    var bad := CheckTargetNames(targets);
    if bad.Some? {
      return Fail(Plain(NotAllowedCharacters("target", bad.value, NameWhitelist)));
    }
    if !boost.Dict? {
      return Fail(Plain(BadFormatBoostSection));
    }
    var target := SelectTarget(targets, selector);
    if target !in Keys(targets) {
      return Fail(Plain(MissingTarget(target)));
    }
    var text := Lookup(targets, target).value;
    var placeholders :- FindAll(text);
    if placeholders == [] {
      return Ok(data);
    }
    var variables :- PyGetItem(data, "vars");
    if !variables.List? {
      return Fail(Plain(BadFormatVarsSection));
    }
    var error := ValidateVariables(variables.items, targets);
    if error.IsFailure() {
      return error.PropagateFailure();
    }
    return Ok(data);
  }

  // ---------------------------------------------------------------------------------
  // What the required-variables dictionary holds

  /** `name` is a placeholder of `o.line`, which is one of the command lines of the
      target `o.target`. */
  ghost predicate Required(targets: seq<(string, Value)>, name: string, o: Origin)
  {
    exists t {:trigger RequiredBy(targets[t], name, o)} :: 0 <= t < |targets| && RequiredBy(targets[t], name, o)
  }

  /** `name` is a placeholder of `o.line`, a command line of the target `entry`. */
  ghost predicate RequiredBy(entry: (string, Value), name: string, o: Origin)
  {
    entry.0 == o.target && entry.1.Str? && o.line in CommandLines(entry.1.s) && name in FindVariablesIn(o.line)
  }

  lemma {:induction false} TagMembers(names: seq<string>, o: Origin, p: (string, Origin))
    ensures p in Tag(names, o) <==> p.1 == o && p.0 in names
    decreases |names|
  {
    if names != [] {
      var pre := names[..|names| - 1];
      TagMembers(pre, o, p);
      assert names == pre + [names[|names| - 1]];
    }
  }

  lemma {:induction false} LinesMembers(target: string, lines: seq<string>, p: (string, Origin))
    ensures p in LinesOccurrences(target, lines) <==>
      p.1.target == target && p.1.line in lines && p.0 in FindVariablesIn(p.1.line)
    decreases |lines|
  {
    if lines != [] {
      var pre := lines[..|lines| - 1];
      var last := lines[|lines| - 1];
      LinesMembers(target, pre, p);
      TagMembers(FindVariablesIn(last), Origin(target, last), p);
      assert lines == pre + [last];
    }
  }

  /** The pairs visited by the loops of `get_required_vars_dict` are exactly the
      placeholders of the command lines of the targets. */
  lemma {:induction false} OccurrencesMembers(targets: seq<(string, Value)>, occ: seq<(string, Origin)>, p: (string, Origin))
    requires Occurrences(targets) == Ok(occ)
    ensures p in occ <==> Required(targets, p.0, p.1)
    decreases |targets|
  {
    if targets != [] {
      var pre := targets[..|targets| - 1];
      var last := targets[|targets| - 1];
      var prev := Occurrences(pre).value;
      OccurrencesMembers(pre, prev, p);
      var lines := CommandLines(last.1.s);
      LinesMembers(last.0, lines, p);
      assert occ == prev + LinesOccurrences(last.0, lines);
      assert p in LinesOccurrences(last.0, lines) <==> RequiredBy(last, p.0, p.1);
      RequiredSplit(targets, p.0, p.1);
    }
  }

  lemma RequiredSplit(targets: seq<(string, Value)>, name: string, o: Origin)
    requires targets != []
    ensures Required(targets, name, o) <==>
      Required(targets[..|targets| - 1], name, o) || RequiredBy(targets[|targets| - 1], name, o)
  {
    var pre := targets[..|targets| - 1];
    if Required(targets, name, o) {
      var t :| 0 <= t < |targets| && RequiredBy(targets[t], name, o);
      if t < |pre| {
        assert pre[t] == targets[t];
      }
    }
    if Required(pre, name, o) {
      var t :| 0 <= t < |pre| && RequiredBy(pre[t], name, o);
      assert targets[t] == pre[t];
    }
  }

  /** Assigning the pairs in order keeps, for each name, the origin of its LAST pair. */
  lemma {:induction false} AssignLast(occ: seq<(string, Origin)>, k: string)
    ensures Get(Assign(occ), k).None? <==> forall m :: 0 <= m < |occ| ==> occ[m].0 != k
    ensures Get(Assign(occ), k).Some? ==>
      exists m :: 0 <= m < |occ| && occ[m] == (k, Get(Assign(occ), k).value)
        && forall m' :: m < m' < |occ| ==> occ[m'].0 != k
    decreases |occ|
  {
    if occ != [] {
      var pre := occ[..|occ| - 1];
      var last := occ[|occ| - 1];
      AssignLast(pre, k);
      PutGet(Assign(pre), last.0, last.1, k);
      assert forall m :: 0 <= m < |pre| ==> pre[m] == occ[m];
      if last.0 != k && Get(Assign(pre), k).Some? {
        var m :| 0 <= m < |pre| && pre[m] == (k, Get(Assign(pre), k).value)
          && forall m' :: m < m' < |pre| ==> pre[m'].0 != k;
        assert occ[m] == pre[m];
      }
    }
  }

  /** Every entry of the dictionary is a placeholder of the line it records, and that
      line is a command line of the target it records. */
  lemma RequiredVarsSound(targets: seq<(string, Value)>, d: VarDict, k: string)
    requires RequiredVarsOf(targets) == Ok(d)
    ensures Get(d, k).Some? ==>
      Required(targets, k, Get(d, k).value) && Occurs("{" + k + "}", Get(d, k).value.line)
  {
    var occ := Occurrences(targets).value;
    AssignLast(occ, k);
    if Get(d, k).Some? {
      var o := Get(d, k).value;
      var m :| 0 <= m < |occ| && occ[m] == (k, o) && forall m' :: m < m' < |occ| ==> occ[m'].0 != k;
      OccurrencesMembers(targets, occ, occ[m]);
      var t :| 0 <= t < |targets| && RequiredBy(targets[t], k, o);
      var names := FindVariablesIn(o.line);
      var i :| 0 <= i < |names| && names[i] == k;
      PlaceholdersOccur(o.line);
    }
  }

  /** Every placeholder of every command line of every target has an entry. */
  lemma RequiredVarsComplete(targets: seq<(string, Value)>, d: VarDict, k: string, o: Origin)
    requires RequiredVarsOf(targets) == Ok(d)
    ensures Required(targets, k, o) ==> Get(d, k).Some?
  {
    var occ := Occurrences(targets).value;
    if Required(targets, k, o) {
      OccurrencesMembers(targets, occ, (k, o));
      var m :| 0 <= m < |occ| && occ[m] == (k, o);
      AssignLast(occ, k);
    }
  }

  lemma TwoTargetsOccurrences(x: string, v: string)
    requires CommandLines(x) == [x] && FindVariablesIn(x) == [v]
    ensures Occurrences([("a", Str(x)), ("b", Str(x))]) == Ok([(v, Origin("a", x)), (v, Origin("b", x))])
  {
    assert [v][..0] == [] && [x][..0] == [];
    var oa, ob := Origin("a", x), Origin("b", x);
    assert Tag([v], oa) == Tag([], oa) + [(v, oa)] == [(v, oa)];
    assert Tag([v], ob) == Tag([], ob) + [(v, ob)] == [(v, ob)];
    assert LinesOccurrences("a", [x]) == LinesOccurrences("a", []) + LineOccurrences("a", x) == [(v, oa)];
    assert LinesOccurrences("b", [x]) == LinesOccurrences("b", []) + LineOccurrences("b", x) == [(v, ob)];
    assert CommandLines(Str(x).s) == [x];
    var targets := [("a", Str(x)), ("b", Str(x))];
    assert targets[..0] == [];
    OccurrencesStep(targets, 0, []);
    assert targets[..1] == [("a", Str(x))];
    OccurrencesStep(targets, 1, [(v, oa)]);
    assert targets[..2] == targets;
    var occ := [(v, oa), (v, ob)];
    assert targets[1].0 == "b" && targets[1].1.s == x;
    assert [(v, oa)] + [(v, ob)] == occ;
    assert Occurrences(targets[..2]) == Ok(occ);
  }

  /** The code keeps the last line using a variable, not the first: when two targets
      consist of the same one-line command using one variable, the dictionary records
      the second target. */
  lemma RequiredVarsKeepsLast(x: string, v: string)
    requires CommandLines(x) == [x] && FindVariablesIn(x) == [v]
    ensures RequiredVarsOf([("a", Str(x)), ("b", Str(x))]) == Ok([(v, Origin("b", x))])
  {
    TwoTargetsOccurrences(x, v);
    var oa, ob := Origin("a", x), Origin("b", x);
    var occ := [(v, oa), (v, ob)];
    assert occ[..1] == [(v, oa)];
    assert occ[..1][..0] == [];
    assert Assign(occ[..1]) == Put([], v, oa) == [(v, oa)];
    assert Assign(occ) == Put([(v, oa)], v, ob) == [(v, ob)];
  }

  /** The same with the text `{v}`: the test suite expects the first target here. */
  lemma RequiredVarsKeepsLastExample(x: string)
    requires x == "{v}"
    ensures RequiredVarsOf([("a", Str(x)), ("b", Str(x))]) == Ok([("v", Origin("b", x))])
  {
    assert LStrip(x) == x && RStrip(x) == x;
    SplitPiece(x, [], '\n');
    MatchHere(x, 1, 2);
    SkipPlain(x, 2, 3);
    assert x[1..2] == "v";
    RequiredVarsKeepsLast(x, "v");
  }

  // ---------------------------------------------------------------------------------
  // What `validate_variables` guarantees

  /** `k` is a variable name (not `attributes`) among the keys of `entries` from `j` on. */
  ghost predicate DeclaresIn(entries: seq<(string, Value)>, j: nat, k: string)
  {
    k != AttributesKey && exists m :: j <= m < |entries| && entries[m].0 == k
  }

  /** Some declaration from the `i`-th on is a mapping that declares `k`. */
  ghost predicate DeclaredFrom(vs: seq<Value>, i: nat, k: string)
  {
    exists n :: i <= n < |vs| && vs[n].Dict? && DeclaresIn(vs[n].entries, 0, k)
  }

  /** A declaration as the validator accepts it: every `attributes` value passes the
      attribute checks, every other key is a well-formed name whose value is a string,
      and only `attributes` may follow the variable itself. */
  ghost predicate WellFormedDecl(entries: seq<(string, Value)>)
  {
    && (forall m :: 0 <= m < |entries| && entries[m].0 == AttributesKey ==> AttributesVerdict(entries[m].1).Ok?)
    && (forall m :: 0 <= m < |entries| && entries[m].0 != AttributesKey ==>
          Allowed(entries[m].0, NameWhitelist) && entries[m].1.Str?)
    && (forall m, m' :: 0 <= m < m' < |entries| && entries[m].0 != AttributesKey ==> entries[m'].0 == AttributesKey)
  }

  /** Checking a declaration removes from the required variables exactly the variable it
      declares. */
  lemma {:induction false} ItemsRequired(vs: seq<Value>, entries: seq<(string, Value)>, j: nat, single: bool, st: Scan, k: string)
    requires j <= |entries| && CheckItems(vs, entries, j, single, st).Ok?
    ensures Get(CheckItems(vs, entries, j, single, st).value.required, k)
      == if DeclaresIn(entries, j, k) then None else Get(st.required, k)
    decreases |entries| - j
  {
    if j < |entries| {
      var (key, value) := entries[j];
      assert DeclaresIn(entries, j, k) <==> (k != AttributesKey && k == key) || DeclaresIn(entries, j + 1, k);
      if key == AttributesKey {
        ItemsRequired(vs, entries, j + 1, single, st, k);
      } else {
        var refs := FindAll(value).value;
        var checked := CheckRefs(vs, entries, key, value.s, refs, 0, st.checked).value;
        var st' := Scan(Pop(st.required, key), checked);
        ItemsRequired(vs, entries, j + 1, true, st', k);
        PopGet(st.required, key, k);
        ItemsRest(vs, entries, j + 1, st');
      }
    }
  }

  /** Once a variable has been declared, an accepted declaration has only `attributes`
      keys left. */
  lemma {:induction false} ItemsRest(vs: seq<Value>, entries: seq<(string, Value)>, j: nat, st: Scan)
    requires j <= |entries| && CheckItems(vs, entries, j, true, st).Ok?
    ensures forall m :: j <= m < |entries| ==> entries[m].0 == AttributesKey
    decreases |entries| - j
  {
    if j < |entries| {
      assert entries[j].0 == AttributesKey;
      ItemsRest(vs, entries, j + 1, st);
    }
  }

  /** Checking the declarations removes from the required variables exactly the
      variables they declare. */
  lemma {:induction false} DeclsRequired(vs: seq<Value>, i: nat, st: Scan, k: string)
    requires i <= |vs| && CheckDecls(vs, i, st).Ok?
    ensures Get(CheckDecls(vs, i, st).value.required, k)
      == if DeclaredFrom(vs, i, k) then None else Get(st.required, k)
    decreases |vs| - i
  {
    if i < |vs| {
      var entries := vs[i].entries;
      var st' := CheckItems(vs, entries, 0, false, st).value;
      ItemsRequired(vs, entries, 0, false, st, k);
      DeclsRequired(vs, i + 1, st', k);
      assert DeclaredFrom(vs, i, k) <==> DeclaresIn(entries, 0, k) || DeclaredFrom(vs, i + 1, k);
    }
  }

  /** What one accepted entry of a declaration tells: an `attributes` entry passes the
      attribute checks, any other entry is the first variable of the declaration, with a
      well-formed name and a string value; the rest of the entries are accepted too. */
  lemma ItemsHead(vs: seq<Value>, entries: seq<(string, Value)>, j: nat, single: bool, st: Scan)
    requires j < |entries| && CheckItems(vs, entries, j, single, st).Ok?
    ensures entries[j].0 == AttributesKey ==>
      AttributesVerdict(entries[j].1).Ok? && CheckItems(vs, entries, j + 1, single, st).Ok?
    ensures entries[j].0 != AttributesKey ==>
      && !single && Allowed(entries[j].0, NameWhitelist) && entries[j].1.Str?
      && CheckRefs(vs, entries, entries[j].0, entries[j].1.s, FindVariablesIn(entries[j].1.s), 0, st.checked).Ok?
      && CheckItems(vs, entries, j + 1, true, Scan(Pop(st.required, entries[j].0),
           CheckRefs(vs, entries, entries[j].0, entries[j].1.s, FindVariablesIn(entries[j].1.s), 0, st.checked).value)).Ok?
  {
  }

  /** An accepted declaration is well formed. */
  lemma {:induction false} ItemsWellFormed(vs: seq<Value>, entries: seq<(string, Value)>, j: nat, single: bool, st: Scan)
    requires j <= |entries| && CheckItems(vs, entries, j, single, st).Ok?
    ensures forall m :: j <= m < |entries| && entries[m].0 == AttributesKey ==> AttributesVerdict(entries[m].1).Ok?
    ensures forall m :: j <= m < |entries| && entries[m].0 != AttributesKey ==>
      !single && Allowed(entries[m].0, NameWhitelist) && entries[m].1.Str?
    ensures forall m, m' :: j <= m < m' < |entries| && entries[m].0 != AttributesKey ==> entries[m'].0 == AttributesKey
    decreases |entries| - j
  {
    if j < |entries| {
      ItemsHead(vs, entries, j, single, st);
      var key := entries[j].0;
      if key == AttributesKey {
        ItemsWellFormed(vs, entries, j + 1, single, st);
      } else {
        var value := entries[j].1;
        var checked := CheckRefs(vs, entries, key, value.s, FindVariablesIn(value.s), 0, st.checked).value;
        var st' := Scan(Pop(st.required, key), checked);
        ItemsWellFormed(vs, entries, j + 1, true, st');
        ItemsRest(vs, entries, j + 1, st');
      }
    }
  }

  /** Every declaration the validator accepts is a well-formed mapping. */
  lemma {:induction false} DeclsWellFormed(vs: seq<Value>, i: nat, st: Scan)
    requires i <= |vs| && CheckDecls(vs, i, st).Ok?
    ensures forall n :: i <= n < |vs| ==> vs[n].Dict? && WellFormedDecl(vs[n].entries)
    decreases |vs| - i
  {
    if i < |vs| {
      var entries := vs[i].entries;
      ItemsWellFormed(vs, entries, 0, false, st);
      DeclsWellFormed(vs, i + 1, CheckItems(vs, entries, 0, false, st).value);
    }
  }

  /** When `validate_variables` returns the empty string, every declaration is a
      well-formed mapping, and every placeholder of every command line of every target
      is declared by one of them. */
  lemma VariablesVerdictSound(vs: seq<Value>, targets: seq<(string, Value)>, k: string, o: Origin)
    requires VariablesVerdict(vs, targets) == Ok(())
    ensures forall n :: 0 <= n < |vs| ==> vs[n].Dict? && WellFormedDecl(vs[n].entries)
    ensures Required(targets, k, o) ==> DeclaredFrom(vs, 0, k)
  {
    var d := RequiredVarsOf(targets).value;
    var fin := CheckDecls(vs, 0, Scan(d, [])).value;
    DeclsWellFormed(vs, 0, Scan(d, []));
    RequiredVarsComplete(targets, d, k, o);
    DeclsRequired(vs, 0, Scan(d, []), k);
  }

  /** When a required variable is left over, `validate_variables` reports the first one
      as missing, with the caret on its placeholder in the command line recorded for it;
      that variable is a placeholder of that line and no declaration declares it. */
  lemma UndeclaredVariableReported(vs: seq<Value>, targets: seq<(string, Value)>)
    requires RequiredVarsOf(targets).Ok?
    requires CheckDecls(vs, 0, Scan(RequiredVarsOf(targets).value, [])).Ok?
    requires CheckDecls(vs, 0, Scan(RequiredVarsOf(targets).value, [])).value.required != []
    ensures var (v, o) := CheckDecls(vs, 0, Scan(RequiredVarsOf(targets).value, [])).value.required[0];
      && VariablesVerdict(vs, targets).Fail?
      && VariablesVerdict(vs, targets).failure.Hinted?
      && VariablesVerdict(vs, targets).failure.text == o.line
      && VariablesVerdict(vs, targets).failure.msg == MissingVariable(v, "target", o.target)
      && OccursAt(o.line, "{" + v + "}", VariablesVerdict(vs, targets).failure.position)
      && Required(targets, v, o)
      && !DeclaredFrom(vs, 0, v)
  {
    var d := RequiredVarsOf(targets).value;
    var fin := CheckDecls(vs, 0, Scan(d, [])).value;
    var (v, o) := fin.required[0];
    assert Get(fin.required, v) == Some(o);
    DeclsRequired(vs, 0, Scan(d, []), v);
    RequiredVarsSound(targets, d, v);
  }
}
