module ValidationStops {
  import opened Text
  import opened Tree
  import opened Errors
  import opened Scanner
  import opened Builtins
  import opened Validations

  // ---------------------------------------------------------------------------------
  // Where the placeholder loop of `validate_variables` stops

  /** The generator at :145-147 yields the declaration being checked as soon as it meets
      a declaration containing `name`, when no declaration before that one is a scalar
      (on which `in` raises). */
  lemma {:induction false} DeclaringFirst(vs: seq<Value>, name: string, current: Value, i: nat)
    requires i < |vs| && PyIn(name, vs[i]) == Ok(true)
    requires forall n :: 0 <= n < i ==> !vs[n].Scalar?
    ensures Declaring(vs, name, current) == Ok(Some(current))
    decreases i
  {
    if i > 0 && PyIn(name, vs[0]) != Ok(true) {
      assert forall n :: 0 <= n < i - 1 ==> vs[1..][n] == vs[n + 1];
      DeclaringFirst(vs[1..], name, current, i - 1);
    }
  }

  /** The generator yields nothing when no declaration contains `name`. */
  lemma {:induction false} DeclaringNone(vs: seq<Value>, name: string, current: Value)
    requires forall n :: 0 <= n < |vs| ==> PyIn(name, vs[n]) == Ok(false)
    ensures Declaring(vs, name, current) == Ok(None)
    decreases |vs|
  {
    if vs != [] {
      assert forall n :: 0 <= n < |vs| - 1 ==> vs[1..][n] == vs[n + 1];
      DeclaringNone(vs[1..], name, current);
    }
  }

  /** SELF_VAR_REQUEST (:161-167): when the `k`-th placeholder is a key of the
      declaration being checked, the `i`-th with no scalar before it, and that declaration
      is not among the checked ones, the loop stops at that placeholder. The caret goes
      on its first occurrence in the value stored under that key; a value that is not a
      string holding it raises instead. */
  lemma SelfReferenceReported(vs: seq<Value>, entries: seq<(string, Value)>, name: string, value: string,
                              refs: seq<string>, k: nat, checked: seq<Option<Value>>, i: nat)
    requires k < |refs| && i < |vs| && vs[i] == Dict(entries)
    requires forall n :: 0 <= n < i ==> !vs[n].Scalar?
    requires refs[k] in Keys(entries) && Some(Dict(entries)) !in checked
    ensures var p := "{" + refs[k] + "}";
      var v := ValueUnder(entries, refs[k]).value;
      && (v.Str? && Occurs(p, v.s) ==>
            CheckRefs(vs, entries, name, value, refs, k, checked)
              == Fail(Hinted(v.s, IndexOf(v.s, p).value, SelfVarRequest(refs[k]))))
      && (!(v.Str? && Occurs(p, v.s)) ==> CheckRefs(vs, entries, name, value, refs, k, checked).Raise?)
  {
    DeclaringFirst(vs, refs[k], Dict(entries), i);
  }

  /** MISSING_VARIABLE for an inner variable (:154-159): when no declaration contains the
      `k`-th placeholder, the loop stops at it, with the caret on its first occurrence in
      the value being checked and the message naming the variable declared; a value that
      does not hold it raises instead. */
  lemma MissingInnerReported(vs: seq<Value>, entries: seq<(string, Value)>, name: string, value: string,
                             refs: seq<string>, k: nat, checked: seq<Option<Value>>)
    requires k < |refs|
    requires forall n :: 0 <= n < |vs| ==> PyIn(refs[k], vs[n]) == Ok(false)
    requires None !in checked
    ensures var p := "{" + refs[k] + "}";
      && (Occurs(p, value) ==>
            CheckRefs(vs, entries, name, value, refs, k, checked)
              == Fail(Hinted(value, IndexOf(value, p).value, MissingVariable(refs[k], "variable", name))))
      && (!Occurs(p, value) ==> CheckRefs(vs, entries, name, value, refs, k, checked) == Raise(ValueError))
  {
    DeclaringNone(vs, refs[k], Dict(entries));
  }

  /** The generator yields the declaration being checked, not the one containing the
      placeholder (:145-152): a placeholder that another declaration holds, and that is
      not a key of the declaration being checked, only records that declaration as
      checked. */
  lemma DeclaredElsewhereRecorded(vs: seq<Value>, entries: seq<(string, Value)>, name: string, value: string,
                                  refs: seq<string>, k: nat, checked: seq<Option<Value>>, n: nat)
    requires k < |refs| && n < |vs| && PyIn(refs[k], vs[n]) == Ok(true)
    requires forall j :: 0 <= j < n ==> !vs[j].Scalar?
    requires refs[k] !in Keys(entries) && Some(Dict(entries)) !in checked
    ensures CheckRefs(vs, entries, name, value, refs, k, checked)
      == CheckRefs(vs, entries, name, value, refs, k + 1, checked + [Some(Dict(entries))])
  {
    DeclaringFirst(vs, refs[k], Dict(entries), n);
  }

  /** Once the declaration being checked is among the checked ones, every later
      placeholder for which the generator yields a declaration is skipped (:150-152),
      a self reference included. */
  lemma {:induction false} CheckedSkipsRest(vs: seq<Value>, entries: seq<(string, Value)>, name: string, value: string,
                                            refs: seq<string>, k: nat, checked: seq<Option<Value>>)
    requires k <= |refs| && Some(Dict(entries)) in checked
    requires forall m :: k <= m < |refs| ==> Declaring(vs, refs[m], Dict(entries)) == Ok(Some(Dict(entries)))
    ensures CheckRefs(vs, entries, name, value, refs, k, checked) == Ok(checked)
    decreases |refs| - k
  {
    if k < |refs| {
      CheckedSkipsRest(vs, entries, name, value, refs, k + 1, checked);
    }
  }

  /** The placeholder loop adds to the checked list at most the declaration being
      checked, and only when it is not there yet. */
  lemma {:induction false} RefsChecked(vs: seq<Value>, entries: seq<(string, Value)>, name: string, value: string,
                                       refs: seq<string>, k: nat, checked: seq<Option<Value>>)
    requires k <= |refs| && CheckRefs(vs, entries, name, value, refs, k, checked).Ok?
    ensures var after := CheckRefs(vs, entries, name, value, refs, k, checked).value;
      after == checked || (Some(Dict(entries)) !in checked && after == checked + [Some(Dict(entries))])
    decreases |refs| - k
  {
    if k < |refs| {
      var found := Declaring(vs, refs[k], Dict(entries)).value;
      if found in checked {
        RefsChecked(vs, entries, name, value, refs, k + 1, checked);
      } else {
        assert found == Some(Dict(entries));
        RefsChecked(vs, entries, name, value, refs, k + 1, checked + [found]);
      }
    }
  }

  /** So does the loop over the entries of a declaration, and once its variable has been
      checked the list stays as it is. */
  lemma {:induction false} ItemsChecked(vs: seq<Value>, entries: seq<(string, Value)>, j: nat, single: bool, st: Scan)
    requires j <= |entries| && CheckItems(vs, entries, j, single, st).Ok?
    ensures var after := CheckItems(vs, entries, j, single, st).value.checked;
      && (after == st.checked || after == st.checked + [Some(Dict(entries))])
      && (single ==> after == st.checked)
    decreases |entries| - j
  {
    if j < |entries| {
      var (key, value) := entries[j];
      ItemsHead(vs, entries, j, single, st);
      if key == AttributesKey {
        ItemsAttributeStep(vs, entries, j, single, st);
        ItemsChecked(vs, entries, j + 1, single, st);
      } else {
        var refs := FindVariablesIn(value.s);
        RefsChecked(vs, entries, key, value.s, refs, 0, st.checked);
        var checked := CheckRefs(vs, entries, key, value.s, refs, 0, st.checked).value;
        ItemsVariableStep(vs, entries, j, single, st);
        ItemsChecked(vs, entries, j + 1, true, Scan(Pop(st.required, key), checked));
      }
    }
  }

  /** One accepted variable entry: its placeholders pass and the loop goes on with the
      variable popped from the required ones. */
  lemma ItemsVariableStep(vs: seq<Value>, entries: seq<(string, Value)>, j: nat, single: bool, st: Scan)
    requires j < |entries| && entries[j].0 != AttributesKey && CheckItems(vs, entries, j, single, st).Ok?
    ensures entries[j].1.Str?
    ensures CheckRefs(vs, entries, entries[j].0, entries[j].1.s, FindVariablesIn(entries[j].1.s), 0, st.checked).Ok?
    ensures CheckItems(vs, entries, j, single, st)
      == CheckItems(vs, entries, j + 1, true, Scan(Pop(st.required, entries[j].0),
           CheckRefs(vs, entries, entries[j].0, entries[j].1.s, FindVariablesIn(entries[j].1.s), 0, st.checked).value))
  {
  }

  /** The state of `validate_variables` before the `i`-th declaration, once the earlier
      ones are accepted: those are mappings, and the checked list holds only them. */
  function ScanBefore(vs: seq<Value>, i: nat, st0: Scan): (r: Outcome<Scan>)
    requires i <= |vs|
    ensures r.Ok? ==> forall n :: 0 <= n < i ==> vs[n].Dict?
    ensures r.Ok? ==> forall c :: c in r.value.checked ==> c in st0.checked || (c.Some? && c.value in vs[..i])
    decreases i
  {
    if i == 0 then Ok(st0)
    else
      var st :- ScanBefore(vs, i - 1, st0);
      var entries :- Items(vs[i - 1]);
      var r := CheckItems(vs, entries, 0, false, st);
      assert vs[..i] == vs[..i - 1] + [vs[i - 1]];
      if r.Ok? then ItemsChecked(vs, entries, 0, false, st); r else r
  }

  /** Checking the declarations from the start is checking them from the `i`-th on, in
      the state reached before it. */
  lemma {:induction false} ScanBeforeDecls(vs: seq<Value>, i: nat, st0: Scan)
    requires i <= |vs| && ScanBefore(vs, i, st0).Ok?
    ensures CheckDecls(vs, 0, st0) == CheckDecls(vs, i, ScanBefore(vs, i, st0).value)
    decreases i
  {
    if i > 0 {
      ScanBeforeDecls(vs, i - 1, st0);
    }
  }

  /** Entries under `attributes` that pass the attribute checks are stepped over. */
  lemma {:induction false} ItemsSkipAttributes(vs: seq<Value>, entries: seq<(string, Value)>, j: nat,
                                               single: bool, st: Scan)
    requires j <= |entries|
    requires forall q :: 0 <= q < j ==> entries[q].0 == AttributesKey && AttributesVerdict(entries[q].1).Ok?
    ensures CheckItems(vs, entries, 0, single, st) == CheckItems(vs, entries, j, single, st)
    decreases j
  {
    if j > 0 {
      ItemsSkipAttributes(vs, entries, j - 1, single, st);
      ItemsAttributeStep(vs, entries, j - 1, single, st);
    }
  }

  /** One `attributes` entry that passes is stepped over. */
  lemma ItemsAttributeStep(vs: seq<Value>, entries: seq<(string, Value)>, m: nat, single: bool, st: Scan)
    requires m < |entries| && entries[m].0 == AttributesKey && AttributesVerdict(entries[m].1).Ok?
    ensures CheckItems(vs, entries, m, single, st) == CheckItems(vs, entries, m + 1, single, st)
  {
  }

  /** `validate_variables` reaches the variable of the `i`-th declaration, stored at entry
      `j`: the required variables were collected, every earlier declaration was accepted
      and none of them is this same declaration, the entries before `j` are attributes
      that pass, the name passes the whitelist and its value is a string. */
  ghost predicate VariableReached(vs: seq<Value>, targets: seq<(string, Value)>, i: nat, j: nat)
  {
    && RequiredVarsOf(targets).Ok?
    && i < |vs| && ScanBefore(vs, i, Scan(RequiredVarsOf(targets).value, [])).Ok?
    && vs[i].Dict? && vs[i] !in vs[..i]
    && j < |vs[i].entries|
    && (forall q :: 0 <= q < j ==> vs[i].entries[q].0 == AttributesKey && AttributesVerdict(vs[i].entries[q].1).Ok?)
    && vs[i].entries[j].0 != AttributesKey && Allowed(vs[i].entries[j].0, NameWhitelist)
    && vs[i].entries[j].1.Str?
  }

  /** The checked list when the variable of the `i`-th declaration is reached. */
  ghost function CheckedAt(vs: seq<Value>, targets: seq<(string, Value)>, i: nat, j: nat): seq<Option<Value>>
    requires VariableReached(vs, targets, i, j)
  {
    ScanBefore(vs, i, Scan(RequiredVarsOf(targets).value, [])).value.checked
  }

  /** Once the variable of a declaration is reached, an error of the loop over its
      placeholders is the verdict of `validate_variables`. */
  lemma PlaceholderErrorIsVerdict(vs: seq<Value>, targets: seq<(string, Value)>, i: nat, j: nat)
    requires VariableReached(vs, targets, i, j)
    ensures var c := CheckRefs(vs, vs[i].entries, vs[i].entries[j].0, vs[i].entries[j].1.s,
                               FindVariablesIn(vs[i].entries[j].1.s), 0, CheckedAt(vs, targets, i, j));
      c.IsFailure() ==> VariablesVerdict(vs, targets) == c.PropagateFailure()
  {
    var d := RequiredVarsOf(targets).value;
    var st := ScanBefore(vs, i, Scan(d, [])).value;
    ScanBeforeDecls(vs, i, Scan(d, []));
    ItemsSkipAttributes(vs, vs[i].entries, j, false, st);
  }

  /** SELF_VAR_REQUEST as the verdict: when the first placeholder of the reached
      variable's value is a key of its own declaration holding a string `v` that contains
      it, `validate_variables` reports the self reference with the caret in `v`. */
  lemma SelfReferenceVerdict(vs: seq<Value>, targets: seq<(string, Value)>, i: nat, j: nat, v: string)
    requires VariableReached(vs, targets, i, j)
    requires FindVariablesIn(vs[i].entries[j].1.s) != []
    requires ValueUnder(vs[i].entries, FindVariablesIn(vs[i].entries[j].1.s)[0]) == Some(Str(v))
    requires Occurs("{" + FindVariablesIn(vs[i].entries[j].1.s)[0] + "}", v)
    ensures var p := FindVariablesIn(vs[i].entries[j].1.s)[0];
      VariablesVerdict(vs, targets) == Fail(Hinted(v, IndexOf(v, "{" + p + "}").value, SelfVarRequest(p)))
  {
    var entries := vs[i].entries;
    var p := FindVariablesIn(entries[j].1.s)[0];
    var checked := CheckedAt(vs, targets, i, j);
    assert (p, Str(v)) in entries;
    var q :| 0 <= q < |entries| && entries[q] == (p, Str(v));
    assert Keys(entries)[q] == p;
    assert Some(vs[i]) !in checked;
    SelfReferenceReported(vs, entries, entries[j].0, entries[j].1.s, FindVariablesIn(entries[j].1.s), 0, checked, i);
    PlaceholderErrorIsVerdict(vs, targets, i, j);
  }

  /** The common case of the above: a variable whose value starts its placeholders with
      the variable itself is reported as a self reference, with the caret in its value. */
  lemma OwnNameVerdict(vs: seq<Value>, targets: seq<(string, Value)>, i: nat, j: nat)
    requires VariableReached(vs, targets, i, j)
    requires FindVariablesIn(vs[i].entries[j].1.s) != []
    requires FindVariablesIn(vs[i].entries[j].1.s)[0] == vs[i].entries[j].0
    ensures var (name, value) := (vs[i].entries[j].0, vs[i].entries[j].1.s);
      && IndexOf(value, "{" + name + "}").Some?
      && VariablesVerdict(vs, targets) == Fail(Hinted(value, IndexOf(value, "{" + name + "}").value, SelfVarRequest(name)))
  {
    var entries := vs[i].entries;
    var (name, value) := (entries[j].0, entries[j].1.s);
    ValueUnderAfterAttributes(entries, j);
    PlaceholderIsIndexable(value, name);
    SelfReferenceVerdict(vs, targets, i, j, value);
  }

  /** The value under the first key that is not `attributes`. */
  lemma {:induction false} ValueUnderAfterAttributes(entries: seq<(string, Value)>, j: nat)
    requires j < |entries| && entries[j].0 != AttributesKey
    requires forall q :: 0 <= q < j ==> entries[q].0 == AttributesKey
    ensures ValueUnder(entries, entries[j].0) == Some(entries[j].1)
    decreases j
  {
    if j > 0 {
      ValueUnderAfterAttributes(entries[1..], j - 1);
    }
  }

  /** MISSING_VARIABLE for an inner variable as the verdict: when no declaration contains
      the first placeholder of the reached variable's value, `validate_variables` reports
      it, with the caret on that placeholder in the value and the variable named. */
  lemma MissingInnerVerdict(vs: seq<Value>, targets: seq<(string, Value)>, i: nat, j: nat)
    requires VariableReached(vs, targets, i, j)
    requires FindVariablesIn(vs[i].entries[j].1.s) != []
    requires forall n :: 0 <= n < |vs| ==> PyIn(FindVariablesIn(vs[i].entries[j].1.s)[0], vs[n]) == Ok(false)
    ensures var (name, value) := (vs[i].entries[j].0, vs[i].entries[j].1.s);
      var p := FindVariablesIn(value)[0];
      && IndexOf(value, "{" + p + "}").Some?
      && VariablesVerdict(vs, targets)
        == Fail(Hinted(value, IndexOf(value, "{" + p + "}").value, MissingVariable(p, "variable", name)))
  {
    var entries := vs[i].entries;
    var value := entries[j].1.s;
    var refs := FindVariablesIn(value);
    PlaceholderIsIndexable(value, refs[0]);
    MissingInnerReported(vs, entries, entries[j].0, value, refs, 0, CheckedAt(vs, targets, i, j));
    PlaceholderErrorIsVerdict(vs, targets, i, j);
  }

  /** The skip of :150-152 for a whole value: when the first placeholder of the reached
      variable's value belongs to another declaration, every placeholder of the value is
      declared somewhere and no declaration is a scalar, the value passes and only records
      its declaration as checked, even when a later placeholder is the variable itself. */
  lemma FirstElsewhereSkipsRest(vs: seq<Value>, targets: seq<(string, Value)>, i: nat, j: nat)
    requires VariableReached(vs, targets, i, j)
    requires FindVariablesIn(vs[i].entries[j].1.s) != []
    requires FindVariablesIn(vs[i].entries[j].1.s)[0] !in Keys(vs[i].entries)
    requires forall n :: 0 <= n < |vs| ==> !vs[n].Scalar?
    requires forall m :: 0 <= m < |FindVariablesIn(vs[i].entries[j].1.s)| ==>
      exists n :: 0 <= n < |vs| && PyIn(FindVariablesIn(vs[i].entries[j].1.s)[m], vs[n]) == Ok(true)
    ensures CheckRefs(vs, vs[i].entries, vs[i].entries[j].0, vs[i].entries[j].1.s,
                      FindVariablesIn(vs[i].entries[j].1.s), 0, CheckedAt(vs, targets, i, j))
      == Ok(CheckedAt(vs, targets, i, j) + [Some(vs[i])])
  {
    var entries := vs[i].entries;
    var (name, value) := (entries[j].0, entries[j].1.s);
    var refs := FindVariablesIn(value);
    var checked := CheckedAt(vs, targets, i, j);
    assert Some(vs[i]) !in checked;
    var n :| 0 <= n < |vs| && PyIn(refs[0], vs[n]) == Ok(true);
    DeclaredElsewhereRecorded(vs, entries, name, value, refs, 0, checked, n);
    forall m | 1 <= m < |refs|
      ensures Declaring(vs, refs[m], Dict(entries)) == Ok(Some(Dict(entries)))
    {
      var n' :| 0 <= n' < |vs| && PyIn(refs[m], vs[n']) == Ok(true);
      DeclaringFirst(vs, refs[m], Dict(entries), n');
    }
    CheckedSkipsRest(vs, entries, name, value, refs, 1, checked + [Some(vs[i])]);
  }
}
