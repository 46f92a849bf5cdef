/**
 * The context builder of boostbuild/context.py: the `Variable` and `Command` objects,
 * the recursive resolver `check_inner_variables`, which shares one `Variable` object per
 * name through its two tables, and `load_context`, which turns the selected target's
 * text into commands.
 *
 * The configuration is the already loaded tree; the Python dictionaries
 * `general_variables` and `command_variables` are the two map fields of one
 * `VariableTables` object. What `Command.call` hands to the command implementation is
 * its result; the implementation itself is not modelled.
 */
module Context {
  import opened Text
  import opened Tree
  import opened Errors
  import opened Scanner
  import opened Builtins
  import opened Validations

  /** What `get_value(secret=True)` shows instead of a secret value. */
  const SecretMask: string := "*****"

  // ---------------------------------------------------------------------------------
  // Variables and commands

  /** A resolved variable (:22-46). Its name, value and attributes are set once; the list
      of inner variables is the resolver's own output list, which the resolver extends
      after creating the variable. */
  class Variable {
    const name: string
    const value: string
    const attributes: Value
    var innerVariables: seq<Variable>

    constructor (name: string, value: string, attributes: Value, innerVariables: seq<Variable>)
      ensures this.name == name && this.value == value && this.attributes == attributes
      ensures this.innerVariables == innerVariables
    {
      this.name := name;
      this.value := value;
      this.attributes := attributes;
      this.innerVariables := innerVariables;
    }

    /** `get_value(secret)` (:39-46): the mask when asked to hide secrets and the
        attributes contain `secret`, the value otherwise. The containment test is
        Python's `in`, so it raises on attributes that are a number, a boolean or `null`. */
    function GetValue(secret: bool): (r: Outcome<string>)
      ensures !r.Fail?
      ensures r.Raise? <==> secret && attributes.Scalar?
      ensures r.Ok? ==> r.value == value || r.value == SecretMask
      ensures r == Ok(SecretMask) && value != SecretMask ==> secret && PyIn("secret", attributes) == Ok(true)
      ensures secret && PyIn("secret", attributes) == Ok(true) ==> r == Ok(SecretMask)
      ensures !secret || PyIn("secret", attributes) == Ok(false) ==> r == Ok(value)
    {
      if secret then
        var isSecret :- PyIn("secret", attributes);
        if isSecret then Ok(SecretMask) else Ok(value)
      else Ok(value)
    }
  }

  /** An argument that starts with `{` and ends with `}` stands for a variable as a
      whole (:110). */
  predicate IsWholePlaceholder(arg: string)
  {
    |arg| > 0 && arg[0] == '{' && arg[|arg| - 1] == '}'
  }

  /** The variable name inside a whole-token placeholder: `arg[1:-1]`. */
  function PlaceholderName(arg: string): (name: string)
    requires IsWholePlaceholder(arg)
    ensures arg == "{" + name + "}"
  {
    arg[1..|arg| - 1]
  }

  /** One argument as `get_arguments` replaces it (:107-113): a whole-token placeholder
      becomes the value of its variable, which must be among the command's variables;
      any other argument, even one with a placeholder inside, stays as it is. */
  function ExpandArg(variables: map<string, Variable>, arg: string, secret: bool): (r: Outcome<string>)
    ensures !IsWholePlaceholder(arg) ==> r == Ok(arg)
    ensures IsWholePlaceholder(arg) && PlaceholderName(arg) !in variables ==> r == Raise(KeyError(PlaceholderName(arg)))
    ensures IsWholePlaceholder(arg) && PlaceholderName(arg) in variables ==>
      r == variables[PlaceholderName(arg)].GetValue(secret)
    ensures !r.Fail?
  {
    if IsWholePlaceholder(arg) then
      var name := PlaceholderName(arg);
      if name in variables then variables[name].GetValue(secret) else Raise(KeyError(name))
    else Ok(arg)
  }

  /** The arguments with their placeholders replaced, or the exception of the first
      argument that cannot be replaced. */
  function Expand(variables: map<string, Variable>, args: seq<string>, secret: bool): (r: Outcome<seq<string>>)
    ensures !r.Fail?
  {
    if args == [] then Ok([])
    else
      var init :- Expand(variables, args[..|args| - 1], secret);
      var last :- ExpandArg(variables, args[|args| - 1], secret);
      Ok(init + [last])
  }

  /** Replacement keeps the number and the order of the arguments and replaces each one
      on its own; it fails exactly when some argument cannot be replaced. */
  lemma {:induction false} ExpandShape(variables: map<string, Variable>, args: seq<string>, secret: bool)
    ensures Expand(variables, args, secret).Ok? <==>
      forall i :: 0 <= i < |args| ==> ExpandArg(variables, args[i], secret).Ok?
    ensures Expand(variables, args, secret).Ok? ==>
      && |Expand(variables, args, secret).value| == |args|
      && forall i :: 0 <= i < |args| ==>
           ExpandArg(variables, args[i], secret) == Ok(Expand(variables, args, secret).value[i])
  {
    if args != [] {
      var init := args[..|args| - 1];
      ExpandShape(variables, init, secret);
      assert forall i :: 0 <= i < |init| ==> init[i] == args[i];
    }
  }

  /** An exception raised while replacing the first `j` arguments is the exception of
      the whole replacement. */
  lemma {:induction false} ExpandRaisesEarly(variables: map<string, Variable>, args: seq<string>, j: nat, secret: bool)
    requires j <= |args| && Expand(variables, args[..j], secret).Raise?
    ensures Expand(variables, args, secret) == Expand(variables, args[..j], secret)
    decreases |args|
  {
    if j < |args| {
      var init := args[..|args| - 1];
      assert init[..j] == args[..j];
      ExpandRaisesEarly(variables, init, j, secret);
    } else {
      assert args[..j] == args;
    }
  }

  /** With secrets hidden, a whole-token placeholder of a secret variable becomes the
      mask, so the secret value never takes an argument's place. */
  lemma SecretsMasked(variables: map<string, Variable>, args: seq<string>, i: int)
    requires Expand(variables, args, true).Ok? && 0 <= i < |args|
    requires IsWholePlaceholder(args[i]) && PlaceholderName(args[i]) in variables
    requires PyIn("secret", variables[PlaceholderName(args[i])].attributes) == Ok(true)
    ensures |Expand(variables, args, true).value| == |args|
    ensures Expand(variables, args, true).value[i] == SecretMask
  {
    ExpandShape(variables, args, true);
  }

  /** A boost target command (:49-117): the first word of a command line, the variables
      of that line, and the remaining words. */
  class Command {
    var command: string
    var variables: map<string, Variable>
    var args: seq<string>

    constructor (command: string, variables: map<string, Variable>, args: seq<string>)
      ensures this.command == command && this.variables == variables && this.args == args
    {
      this.command := command;
      this.variables := variables;
      this.args := args;
    }

    /** `get_arguments(secret)` (:95-114): builds the replaced list one argument at a
        time. */
    method GetArguments(secret: bool) returns (r: Outcome<seq<string>>)
      ensures r == Expand(variables, args, secret)
    {
      var replaced: seq<string> := [];
      for i := 0 to |args|
        invariant Expand(variables, args[..i], secret) == Ok(replaced)
      {
        assert args[..i + 1][..i] == args[..i];
        var value := ExpandArg(variables, args[i], secret);
        if value.Raise? {
          ExpandRaisesEarly(variables, args, i + 1, secret);
          return Raise(value.error);
        }
        replaced := replaced + [value.value];
      }
      assert args[..|args|] == args;
      r := Ok(replaced);
    }

    /** `__str__` (:116-117): the command and its arguments with secrets hidden, joined
        by spaces. */
    function Show(): (r: Outcome<string>)
      reads this
    {
      var shown :- Expand(variables, args, true);
      Ok(command + " " + Join(shown, ' '))
    }

    /** `call` (:63-93) up to the point where the arguments go to the command
        implementation: when no implementation is registered under the command's name,
        the name is inserted in front of the arguments, in place, before they are
        replaced. `registered` stands for the module lookup at :72-73. */
    method Call(registered: bool) returns (r: Outcome<seq<string>>)
      modifies this
      ensures command == old(command) && variables == old(variables)
      ensures args == if registered then old(args) else [old(command)] + old(args)
      ensures r == Expand(variables, args, false)
    {
      if !registered {
        args := [command] + args;
      }
      r := GetArguments(false);
    }
  }

  /** A command shows its name and then its replaced arguments; a secret variable used as
      a whole argument shows as the mask. */
  lemma ShowExample(c: Command, v: Variable, pw: string, arg: string, attrs: string)
    requires pw == "pw" && arg == "{pw}" && attrs == "secret,exec"
    requires c.command == "echo" && c.args == [arg, "x"] && c.variables == map[pw := v]
    requires v.attributes == Str(attrs)
    ensures c.Show() == Ok("echo ***** x")
  {
    assert PlaceholderName(arg) == pw;
    assert OccursAt(attrs, "secret", 0);
    assert PyIn("secret", v.attributes) == Ok(true);
    assert ExpandArg(c.variables, arg, true) == Ok(SecretMask);
    assert ExpandArg(c.variables, "x", true) == Ok("x");
    var vs, one := c.variables, [arg];
    var none: seq<string> := [];
    assert one[..0] == none && one[0] == arg;
    assert Expand(vs, none, true) == Ok(none);
    assert Expand(vs, one, true) == Ok(none + [SecretMask]);
    assert c.args[..1] == one && c.args[1] == "x";
    assert Expand(vs, c.args, true) == Ok(none + [SecretMask] + ["x"]);
    assert none + [SecretMask] + ["x"] == [SecretMask, "x"];
    assert Join([SecretMask, "x"], ' ') == SecretMask + " " + "x";
    assert c.Show() == Ok(c.command + " " + Join([SecretMask, "x"], ' '));
    assert "echo" + " " + (SecretMask + " " + "x") == "echo ***** x";
  }

  /** The shown command splits on spaces, as `load_context` splits a command line, into
      the command and its replaced arguments, when none of them holds a space; a command
      without arguments shows with a trailing space. */
  lemma ShowSplits(c: Command)
    requires c.Show().Ok? && ' ' !in c.command
    requires forall i :: 0 <= i < |Expand(c.variables, c.args, true).value| ==>
      ' ' !in Expand(c.variables, c.args, true).value[i]
    ensures Split(c.Show().value, ' ')
      == [c.command] + if c.args == [] then [""] else Expand(c.variables, c.args, true).value
  {
    var shown := Expand(c.variables, c.args, true).value;
    ExpandShape(c.variables, c.args, true);
    SplitPiece(c.command, Join(shown, ' '), ' ');
    assert c.Show().value == c.command + [' '] + Join(shown, ' ');
    if shown != [] {
      SplitJoin(shown, ' ');
    }
  }

  // ---------------------------------------------------------------------------------
  // check_inner_variables

  /** The first item that contains `key` (Python's `in`), or `None`. */
  function FirstContaining(items: seq<Value>, key: string): (r: Outcome<Option<Value>>)
    ensures !r.Fail?
    ensures r.Ok? && r.value.Some? ==> r.value.value in items && PyIn(key, r.value.value) == Ok(true)
    ensures r == Ok(None) ==> forall i :: 0 <= i < |items| ==> PyIn(key, items[i]) == Ok(false)
  {
    if items == [] then Ok(None)
    else
      var has :- PyIn(key, items[0]);
      if has then Ok(Some(items[0]))
      else
        var r := FirstContaining(items[1..], key);
        r
  }

  /** The declaration the generator at :229-231 picks for `key`: the first item of the
      `vars` section that contains `key`. */
  function Declaration(data: Value, key: string): (r: Outcome<Option<Value>>)
    ensures !r.Fail?
  {
    var vars :- PyGetItem(data, "vars");
    var items :- Elements(vars);
    FirstContaining(items, key)
  }

  /** The resolver finds no usable declaration (:234): none at all, or an empty one. */
  predicate Undeclared(data: Value, key: string)
  {
    Declaration(data, key).Ok? && (Declaration(data, key).value.None? || !Truthy(Declaration(data, key).value.value))
  }

  /** The text declared for `key`, when its declaration is a mapping holding a string
      under `key`. */
  function DeclaredText(data: Value, key: string): Option<string>
  {
    match Declaration(data, key)
    case Ok(Some(Dict(entries))) =>
      (match Lookup(entries, key)
       case Some(Str(s)) => Some(s)
       case _ => None)
    case _ => None
  }

  /** The attributes of a declaration (:261-263): the value under `attributes`, or the
      empty string. */
  function AttributesOf(entries: seq<(string, Value)>): Value
  {
    match Lookup(entries, AttributesKey)
    case Some(a) => a
    case None => Str("")
  }

  /** `v` is the variable the resolver builds for `key` from its declaration. */
  ghost predicate BuiltFrom(data: Value, key: string, v: Variable)
  {
    && v.name == key
    && DeclaredText(data, key) == Some(v.value)
    && Declaration(data, key).Ok? && Declaration(data, key).value.Some?
    && Declaration(data, key).value.value.Dict?
    && v.attributes == AttributesOf(Declaration(data, key).value.value.entries)
  }

  /** An error string of `check_inner_variables` for `name`: its own self reference
      (:242-244), or an error of an inner variable with ` from name` added (:252-256). */
  predicate ResolverFailure(f: Failure, name: string)
  {
    f == Plain(SelfVarRequest(name)) || (f.From? && f.variable == name)
  }

  /** An error string of `check_inner_variables` for `key`, whose declared value has the
      placeholders `refs`: its own self reference, or the error string that one of those
      placeholders produced, with ` from key` added. */
  predicate NestedFailure(f: Failure, key: string, refs: seq<string>)
  {
    || f == Plain(SelfVarRequest(key))
    || (f.From? && f.variable == key && exists p :: p in refs && ResolverFailure(f.cause, p))
  }

  /** A table that only gains entries keeps the first `i` names it held, and with
      `names[i]` added it holds the first `i + 1`. */
  lemma KeepsNames(before: map<string, Variable>, after: map<string, Variable>, names: seq<string>, i: nat)
    requires i < |names|
    requires forall j :: 0 <= j < i ==> names[j] in before
    requires forall k :: k in before ==> k in after
    requires names[i] in after
    ensures forall j :: 0 <= j <= i ==> names[j] in after
  {
  }

  /** The two dictionaries the resolver fills: `general_variables`, shared by all the
      commands of a target, and `command_variables`, the variables of the command line
      being read. */
  class VariableTables {
    var general: map<string, Variable>
    var command: map<string, Variable>

    constructor ()
      ensures general == map[] && command == map[]
    {
      general := map[];
      command := map[];
    }

    /** Each name maps to the one variable built for it from its declaration, and the
        command table holds the very objects of the general table. */
    ghost predicate Valid(data: Value)
      reads this
    {
      && (forall k :: k in general ==> BuiltFrom(data, k, general[k]))
      && (forall k :: k in command ==> k in general && command[k] == general[k])
    }

    /** `check_inner_variables` (:200-276) with `general_variables` and
        `command_variables` as the two tables. `fuel` bounds the depth of the recursion:
        where Python runs out of stack on a cycle of declarations, the model raises
        `RecursionError` when the fuel is spent. An error string comes back as `Fail`, an
        exception as `Raise`; on success the result is the output list, whose last item
        is the variable for `key`. */
    method CheckInnerVariables(data: Value, key: string, fuel: nat) returns (r: Outcome<seq<Variable>>)
      requires Valid(data)
      modifies this
      ensures Valid(data)
      ensures forall k :: k in old(general) ==> k in general && general[k] == old(general)[k]
      ensures forall k :: k in old(command) ==> k in command && command[k] == old(command)[k]
      ensures fuel == 0 ==> r == Raise(RecursionError) && general == old(general) && command == old(command)
      ensures fuel > 0 && key in old(general) ==>
        r == Ok([old(general)[key]]) && general == old(general) && command == old(command)[key := old(general)[key]]
      ensures fuel > 0 && key !in old(general) && Undeclared(data, key) ==>
        r == Raise(IndexError) && general == old(general) && command == old(command)
      ensures r.Ok? ==> r.value != [] && key in general && key in command && r.value[|r.value| - 1] == general[key]
      ensures r.Fail? ==> ResolverFailure(r.failure, key)
      ensures r.Fail? ==>
        DeclaredText(data, key).Some? && NestedFailure(r.failure, key, FindVariablesIn(DeclaredText(data, key).value))
      ensures r == Fail(Plain(SelfVarRequest(key))) ==>
        DeclaredText(data, key).Some? && key in FindVariablesIn(DeclaredText(data, key).value)
      ensures (fuel > 0 && key !in old(general) && DeclaredText(data, key).Some?
               && FindVariablesIn(DeclaredText(data, key).value) != []
               && FindVariablesIn(DeclaredText(data, key).value)[0] == key) ==>
        r == Fail(Plain(SelfVarRequest(key)))
      ensures r.Ok? && key !in old(general) ==>
        && fresh(general[key])
        && general[key].innerVariables == r.value
        && DeclaredText(data, key).Some?
        && key !in FindVariablesIn(DeclaredText(data, key).value)
        && forall p :: p in FindVariablesIn(DeclaredText(data, key).value) ==> p in command
      decreases fuel, 3
    {
      if fuel == 0 {
        return Raise(RecursionError);
      }
      if key in general {
        var v := general[key];
        command := command[key := v];
        return Ok([v]);
      }
      r := CreateVariable(data, key, fuel);
    }

    /** The part of `check_inner_variables` after a missed lookup in the general table
        (:228-276): find the declaration, resolve the placeholders of its value, then
        build the variable and register it in both tables. */
    method CreateVariable(data: Value, key: string, fuel: nat) returns (r: Outcome<seq<Variable>>)
      requires Valid(data) && fuel > 0 && key !in general
      modifies this
      ensures Valid(data)
      ensures forall k :: k in old(general) ==> k in general && general[k] == old(general)[k]
      ensures forall k :: k in old(command) ==> k in command && command[k] == old(command)[k]
      ensures Undeclared(data, key) ==> r == Raise(IndexError) && general == old(general) && command == old(command)
      ensures r.Fail? ==> ResolverFailure(r.failure, key)
      ensures r.Fail? ==>
        DeclaredText(data, key).Some? && NestedFailure(r.failure, key, FindVariablesIn(DeclaredText(data, key).value))
      ensures r == Fail(Plain(SelfVarRequest(key))) ==>
        DeclaredText(data, key).Some? && key in FindVariablesIn(DeclaredText(data, key).value)
      ensures (DeclaredText(data, key).Some?
               && FindVariablesIn(DeclaredText(data, key).value) != []
               && FindVariablesIn(DeclaredText(data, key).value)[0] == key) ==>
        r == Fail(Plain(SelfVarRequest(key)))
      ensures r.Ok? ==>
        && r.value != [] && key in general && key in command && r.value[|r.value| - 1] == general[key]
        && fresh(general[key])
        && general[key].innerVariables == r.value
        && DeclaredText(data, key).Some?
        && key !in FindVariablesIn(DeclaredText(data, key).value)
        && forall p :: p in FindVariablesIn(DeclaredText(data, key).value) ==> p in command
      decreases fuel, 2
    {
      var found :- Declaration(data, key);
      if found.None? || !Truthy(found.value) {
        return Raise(IndexError);
      }
      var decl := found.value;
      var declared :- PyGetItem(decl, key);
      var refs :- FindAll(declared);
      DeclarationRead(data, key, decl, declared);
      r := BuildVariable(data, key, decl, declared.s, refs, fuel);
    }

    /** The rest of `check_inner_variables` once the declared value `text` and its
        placeholders `refs` are read (:240-276): resolve the placeholders, then build
        the variable and register it in both tables. */
    method BuildVariable(data: Value, key: string, decl: Value, text: string, refs: seq<string>, fuel: nat)
      returns (r: Outcome<seq<Variable>>)
      requires Valid(data) && fuel > 0 && key !in general
      requires Declaration(data, key) == Ok(Some(decl)) && decl.Dict? && DeclaredText(data, key) == Some(text)
      requires refs == FindVariablesIn(text)
      modifies this
      ensures Valid(data)
      ensures forall k :: k in old(general) ==> k in general && general[k] == old(general)[k]
      ensures forall k :: k in old(command) ==> k in command && command[k] == old(command)[k]
      ensures r.Fail? ==> NestedFailure(r.failure, key, refs)
      ensures r == Fail(Plain(SelfVarRequest(key))) ==> key in refs
      ensures refs != [] && refs[0] == key ==> r == Fail(Plain(SelfVarRequest(key)))
      ensures r.Ok? ==>
        && r.value != [] && key in general && key in command && r.value[|r.value| - 1] == general[key]
        && fresh(general[key])
        && general[key].innerVariables == r.value
        && key !in refs
        && forall p :: p in refs ==> p in command
      decreases fuel, 1
    {
      var outputs :- ResolveReferences(data, key, refs, fuel);
      var v := new Variable(key, text, AttributesOf(decl.entries), outputs);
      v.innerVariables := v.innerVariables + [v];
      assert BuiltFrom(data, key, v);
      command := command[key := v];
      general := general[key := v];
      r := Ok(outputs + [v]);
    }

    /** A call of `check_inner_variables` from a loop over placeholders (:178-180,
        :247-249), with the part of its contract that such a loop relies on. */
    method ResolveReference(data: Value, name: string, fuel: nat) returns (r: Outcome<seq<Variable>>)
      requires Valid(data)
      modifies this
      ensures Valid(data)
      ensures forall k :: k in old(general) ==> k in general && general[k] == old(general)[k]
      ensures forall k :: k in old(command) ==> k in command && command[k] == old(command)[k]
      ensures r.Ok? ==> name in command
      ensures r.Fail? ==> ResolverFailure(r.failure, name)
      decreases fuel, 4
    {
      r := CheckInnerVariables(data, name, fuel);
    }

    /** The loop over the placeholders of a declared value (:240-258): each one other
        than the variable itself is resolved in turn, and the outputs of the successful
        ones are collected. */
    method ResolveReferences(data: Value, key: string, refs: seq<string>, fuel: nat) returns (r: Outcome<seq<Variable>>)
      requires Valid(data) && fuel > 0
      modifies this
      ensures Valid(data)
      ensures forall k :: k in old(general) ==> k in general && general[k] == old(general)[k]
      ensures forall k :: k in old(command) ==> k in command && command[k] == old(command)[k]
      ensures r.Ok? ==> key !in refs && forall p :: p in refs ==> p in command
      ensures r.Fail? ==> NestedFailure(r.failure, key, refs)
      ensures r == Fail(Plain(SelfVarRequest(key))) ==> key in refs
      ensures refs != [] && refs[0] == key ==> r == Fail(Plain(SelfVarRequest(key)))
      decreases fuel, 0
    {
      var outputs: seq<Variable> := [];
      for i := 0 to |refs|
        invariant Valid(data)
        invariant forall k :: k in old(general) ==> k in general && general[k] == old(general)[k]
        invariant forall k :: k in old(command) ==> k in command && command[k] == old(command)[k]
        invariant forall j :: 0 <= j < i ==> refs[j] in command
        invariant key !in refs[..i]
      {
        if refs[i] == key {
          return Fail(Plain(SelfVarRequest(key)));
        }
        assert refs[..i + 1] == refs[..i] + [refs[i]];
        label Step:
        var inner := ResolveReference(data, refs[i], fuel - 1);
        if inner.Fail? {
          assert refs[i] in refs && ResolverFailure(inner.failure, refs[i]);
          return Fail(From(inner.failure, key));
        } else if inner.Raise? {
          return Raise(inner.error);
        }
        outputs := outputs + inner.value;
        KeepsNames(old@Step(command), command, refs, i);
      }
      assert refs[..|refs|] == refs;
      r := Ok(outputs);
    }

    /** The loop of `load_context` over the placeholders of one command line
        (:177-187): each is resolved in turn, and the first error string ends it. */
    method ResolvePlaceholders(data: Value, names: seq<string>, fuel: nat) returns (r: Outcome<()>)
      requires Valid(data)
      modifies this
      ensures Valid(data)
      ensures forall k :: k in old(general) ==> k in general && general[k] == old(general)[k]
      ensures forall k :: k in old(command) ==> k in command && command[k] == old(command)[k]
      ensures r.Ok? ==> forall p :: p in names ==> p in command
      ensures r.Fail? ==> exists i :: 0 <= i < |names| && ResolverFailure(r.failure, names[i])
    {
      for i := 0 to |names|
        invariant Valid(data)
        invariant forall k :: k in old(general) ==> k in general && general[k] == old(general)[k]
        invariant forall k :: k in old(command) ==> k in command && command[k] == old(command)[k]
        invariant forall j :: 0 <= j < i ==> names[j] in command
      {
        label Step:
        var inner := ResolveReference(data, names[i], fuel);
        if inner.Fail? {
          assert ResolverFailure(inner.failure, names[i]);
          return Fail(inner.failure);
        } else if inner.Raise? {
          return Raise(inner.error);
        }
        KeepsNames(old@Step(command), command, names, i);
      }
      r := Ok(());
    }

    /** One pass of the loop of `load_context` (:165-193): the `vars` section must be
        present and non-empty, even for a line without placeholders; the placeholders
        are resolved into a fresh command table, and the line is split on spaces into the
        command and its arguments. */
    method ReadCommand(data: Value, line: string, fuel: nat) returns (r: Outcome<Command>)
      requires Valid(data)
      modifies this
      ensures Valid(data)
      ensures forall k :: k in old(general) ==> k in general && general[k] == old(general)[k]
      ensures PyIn("vars", data) == Ok(false) ==> r == Fail(Plain(MissingVarsSection))
      ensures PyGetItem(data, "vars").Ok? && !Truthy(PyGetItem(data, "vars").value) ==>
        r == Fail(Plain(EmptyVarsSection))
      ensures r.Fail? ==> LineFailure(r.failure, line)
      ensures r.Ok? ==> VarsPresent(data) && fresh(r.value) && BuiltCommand(r.value, line, general)
    {
      var hasVars :- PyIn("vars", data);
      if !hasVars {
        return Fail(Plain(MissingVarsSection));
      }
      var variables :- PyGetItem(data, "vars");
      if !Truthy(variables) {
        return Fail(Plain(EmptyVarsSection));
      }
      command := map[];
      var resolved :- ResolvePlaceholders(data, FindVariablesIn(line), fuel);
      var parts := Split(line, ' ');
      var c := new Command(parts[0], command, parts[1..]);
      r := Ok(c);
    }

    /** The loop of `load_context` over the command lines of the target (:164-193). */
    method ReadCommands(data: Value, lines: seq<string>, fuel: nat) returns (r: Outcome<seq<Command>>)
      requires Valid(data)
      modifies this
      ensures Valid(data)
      ensures forall k :: k in old(general) ==> k in general && general[k] == old(general)[k]
      ensures lines != [] && PyIn("vars", data) == Ok(false) ==> r == Fail(Plain(MissingVarsSection))
      ensures lines != [] && PyGetItem(data, "vars").Ok? && !Truthy(PyGetItem(data, "vars").value) ==>
        r == Fail(Plain(EmptyVarsSection))
      ensures r.Fail? ==> exists i :: 0 <= i < |lines| && LineFailure(r.failure, lines[i])
      ensures r.Ok? ==>
        && |r.value| == |lines|
        && forall i :: 0 <= i < |lines| ==> BuiltCommand(r.value[i], lines[i], general)
    {
      var commands: seq<Command> := [];
      for i := 0 to |lines|
        invariant Valid(data)
        invariant forall k :: k in old(general) ==> k in general && general[k] == old(general)[k]
        invariant |commands| == i
        invariant i > 0 ==> VarsPresent(data)
        invariant forall j :: 0 <= j < i ==> BuiltCommand(commands[j], lines[j], general)
      {
        label Step:
        var c := ReadCommand(data, lines[i], fuel);
        match c
        case Fail(f) => return Fail(f);
        case Raise(e) => return Raise(e);
        case Ok(cmd) =>
          forall j | 0 <= j < i
            ensures BuiltCommand(commands[j], lines[j], general)
          {
            BuiltCommandGrows(commands[j], lines[j], old@Step(general), general);
          }
          commands := commands + [cmd];
      }
      r := Ok(commands);
    }
  }

  /** What the resolver reads from a usable declaration. */
  lemma DeclarationRead(data: Value, key: string, decl: Value, declared: Value)
    requires Declaration(data, key) == Ok(Some(decl))
    requires PyGetItem(decl, key) == Ok(declared) && declared.Str?
    ensures decl.Dict? && DeclaredText(data, key) == Some(declared.s)
    ensures !Undeclared(data, key) || !Truthy(decl)
  {
  }

  /** The configuration has a non-empty `vars` section (:167-173). */
  predicate VarsPresent(data: Value)
  {
    PyIn("vars", data) == Ok(true) && PyGetItem(data, "vars").Ok? && Truthy(PyGetItem(data, "vars").value)
  }

  /** An error string that reading `line` can produce: a missing or empty `vars` section,
      or an error of the resolver for one of the line's placeholders. */
  predicate LineFailure(f: Failure, line: string)
  {
    || f == Plain(MissingVarsSection)
    || f == Plain(EmptyVarsSection)
    || exists p :: p in FindVariablesIn(line) && ResolverFailure(f, p)
  }

  /** `c` is the command built from `line` (:189-193): its first word, the words after
      it, and a table holding every placeholder of the line, each bound to the variable
      `vars` holds for it. */
  ghost predicate BuiltCommand(c: Command, line: string, vars: map<string, Variable>)
    reads c
  {
    && c.command == Split(line, ' ')[0]
    && c.args == Split(line, ' ')[1..]
    && (forall p :: p in FindVariablesIn(line) ==> p in c.variables)
    && (forall k :: k in c.variables ==> k in vars && c.variables[k] == vars[k])
  }

  /** A command stays built from its line while the general table only grows. */
  lemma BuiltCommandGrows(c: Command, line: string, vars: map<string, Variable>, more: map<string, Variable>)
    requires BuiltCommand(c, line, vars)
    requires forall k :: k in vars ==> k in more && more[k] == vars[k]
    ensures BuiltCommand(c, line, more)
  {
  }

  /** The command and its arguments, joined by spaces, give back the line they were
      built from. */
  lemma BuiltCommandRejoins(c: Command, line: string, vars: map<string, Variable>)
    requires BuiltCommand(c, line, vars)
    ensures Join([c.command] + c.args, ' ') == line
  {
    var parts := Split(line, ' ');
    JoinSplit(line, ' ');
    assert [parts[0]] + parts[1..] == parts;
  }

  // ---------------------------------------------------------------------------------
  // load_context

  /** The checks of `load_context` before its loop (:144-161): the `boost` section must
      be present and non-empty; with no target asked for, the first target is taken, and
      a target asked for must be in the section. The result is the target and its text;
      `strip()` raises on a text that is not a string. */
  function Selection(data: Value, selector: string): (r: Outcome<(string, string)>)
    ensures r == Fail(Plain(MissingBoostSection)) <==> PyIn("boost", data) == Ok(false)
    ensures BoostOf(data).Some? ==> (r == Fail(Plain(EmptyBoostSection)) <==> !Truthy(BoostOf(data).value))
    ensures BoostOf(data).Some? && Truthy(BoostOf(data).value) && selector != ""
            && PyIn(selector, BoostOf(data).value) == Ok(false) ==>
      r == Fail(Plain(MissingTarget(selector)))
    ensures r.Fail? ==>
      r.failure in {Plain(MissingBoostSection), Plain(EmptyBoostSection), Plain(MissingTarget(selector))}
    ensures r.Ok? ==>
      && BoostOf(data).Some? && BoostOf(data).value.Dict? && BoostOf(data).value.entries != []
      && r.value.0 == SelectTarget(BoostOf(data).value.entries, selector)
      && Lookup(BoostOf(data).value.entries, r.value.0) == Some(Str(r.value.1))
    ensures (BoostOf(data).Some? && BoostOf(data).value.Dict? && BoostOf(data).value.entries != []
             && (selector == "" || selector in Keys(BoostOf(data).value.entries))
             && Lookup(BoostOf(data).value.entries, SelectTarget(BoostOf(data).value.entries, selector)).Some?
             && Lookup(BoostOf(data).value.entries, SelectTarget(BoostOf(data).value.entries, selector)).value.Str?) ==>
      r == Ok((SelectTarget(BoostOf(data).value.entries, selector),
               Lookup(BoostOf(data).value.entries, SelectTarget(BoostOf(data).value.entries, selector)).value.s))
  {
    var hasBoost :- PyIn("boost", data);
    if !hasBoost then Fail(Plain(MissingBoostSection))
    else
      var boost :- PyGetItem(data, "boost");
      if !Truthy(boost) then Fail(Plain(EmptyBoostSection))
      else if selector == "" then
        var targets :- Items(boost);
        TargetText(boost, SelectTarget(targets, selector))
      else
        var found :- PyIn(selector, boost);
        if !found then Fail(Plain(MissingTarget(selector)))
        else TargetText(boost, selector)
  }

  /** The text of `target` in the `boost` section (:161). */
  function TargetText(boost: Value, target: string): (r: Outcome<(string, string)>)
    ensures r.Ok? ==> boost.Dict? && r.value.0 == target && Lookup(boost.entries, target) == Some(Str(r.value.1))
    ensures !r.Fail?
  {
    var value :- PyGetItem(boost, target);
    if value.Str? then Ok((target, value.s)) else Raise(AttributeError)
  }

  /** A configuration that `validate_boost_file` accepts gets past the checks of
      `load_context` on the same target. */
  lemma ValidatedFileSelects(data: Value, selector: string)
    requires BoostFileVerdict(data, selector).Ok?
    ensures Selection(data, selector).Ok?
    ensures Selection(data, selector).value.0 == SelectTarget(BoostOf(data).value.entries, selector)
  {
    var boost := BoostOf(data).value;
    var target := SelectTarget(boost.entries, selector);
    assert SectionVerdict(data, boost, selector).Ok?;
    assert Lookup(boost.entries, target).Some?;
    assert TargetVerdict(data, boost.entries, selector).Ok?;
  }

  /** What `load_context` returns as a dictionary: an error string, after the target
      has been recorded or before, or the target with its variables and commands. */
  datatype BoostContext =
    | Failed(forTarget: Option<string>, error: Failure)
    | Built(target: string, vars: map<string, Variable>, commands: seq<Command>)

  /** `load_context(boost_file, boost_target)` (:120-197) on the loaded configuration
      `data`. `fileExists` stands for the test at :135 and `path` for the file's name;
      the YAML reading at :140-141 is not modelled. */
  method LoadContext(fileExists: bool, path: string, data: Value, selector: string, fuel: nat)
    returns (r: Outcome<BoostContext>)
    ensures !r.Fail?
    ensures !fileExists ==> r == Ok(Failed(None, Plain(FileFolderDoesntExist(path))))
    ensures fileExists && Selection(data, selector).Fail? ==> r == Ok(Failed(None, Selection(data, selector).failure))
    ensures fileExists && Selection(data, selector).Raise? ==> r == Raise(Selection(data, selector).error)
    ensures fileExists && Selection(data, selector).Ok? && PyIn("vars", data) == Ok(false) ==>
      r == Ok(Failed(Some(Selection(data, selector).value.0), Plain(MissingVarsSection)))
    ensures fileExists && Selection(data, selector).Ok? && PyGetItem(data, "vars").Ok?
            && !Truthy(PyGetItem(data, "vars").value) ==>
      r == Ok(Failed(Some(Selection(data, selector).value.0), Plain(EmptyVarsSection)))
    ensures r.Ok? && r.value.Failed? && r.value.forTarget.Some? ==>
      && fileExists && Selection(data, selector).Ok?
      && r.value.forTarget.value == Selection(data, selector).value.0
      && exists line :: line in CommandLines(Selection(data, selector).value.1) && LineFailure(r.value.error, line)
    ensures r.Ok? && r.value.Built? ==>
      && fileExists && Selection(data, selector).Ok?
      && r.value.target == Selection(data, selector).value.0
      && |r.value.commands| == |CommandLines(Selection(data, selector).value.1)|
      && (forall i :: 0 <= i < |r.value.commands| ==>
            BuiltCommand(r.value.commands[i], CommandLines(Selection(data, selector).value.1)[i], r.value.vars))
      && (forall k :: k in r.value.vars ==> BuiltFrom(data, k, r.value.vars[k]))
  {
    if !fileExists {
      return Ok(Failed(None, Plain(FileFolderDoesntExist(path))));
    }
    var selected := Selection(data, selector);
    if selected.Fail? {
      return Ok(Failed(None, selected.failure));
    }
    if selected.Raise? {
      return Raise(selected.error);
    }
    var target, text := selected.value.0, selected.value.1;
    var lines := CommandLines(text);
    var tables := new VariableTables();
    var commands := tables.ReadCommands(data, lines, fuel);
    match commands
    case Fail(f) => return Ok(Failed(Some(target), f));
    case Raise(e) => return Raise(e);
    case Ok(cs) => return Ok(Built(target, tables.general, cs));
  }
}
