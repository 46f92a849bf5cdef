# boost — a Dafny model of the configuration validator and the context builder

boost runs the commands of a named *target* from a `boost.yaml` file. The file has a
`boost` section, which maps target names to a text of command lines, and a `vars`
section, which is a list of variable declarations. A command line refers to a variable
with a placeholder `{name}`. A declaration is a mapping with one entry, the variable
and its value, and an optional `attributes` entry such as `secret` or `exec`. The value
of a variable may itself hold placeholders.

This project models the core of the engine on the already loaded YAML tree:

- `scanner.dfy` (module `Scanner`) covers `find_variables_in`, the regular expression
  `(?<={)(.*?)(?=})`. The model keeps Python's rule for empty matches, so `"{}}"` gives
  `["", "}"]`.
- `errors.dfy` (module `Errors`) holds the message templates as constructors carrying
  their format arguments. It also holds the outcome type: `Ok`, `Fail` for an error
  string the code returns, and `Raise` for an exception. It models `build_error_hinting`
  as a loop, proved against the text it must produce.
- `validations.dfy` (module `Validations`) covers the checks of `validate_boost_file`
  after loading, `validate_variables`, `validate_boost_target`,
  `get_required_vars_dict` and the character whitelists. Each loop of the code is a
  method proved equal to a function. The lemmas prove what those functions guarantee.
- `context.dfy` (module `Context`) covers the context builder:
  - `Variable` and `Command` are classes. `get_arguments`, `__str__` and the argument
    splicing of `call` are modelled.
  - `check_inner_variables` works on one `VariableTables` object. Its two map fields
    are the dictionaries `general_variables` and `command_variables`, which the
    recursion updates in place.
  - `load_context` builds the commands of a target.
- `text.dfy`, `tree.dfy` and `builtins.dfy` model the Python operations the engine
  applies to values:
  - the string methods `strip`, `split`, `join` and `index`;
  - the YAML tree (strings, lists, mappings with their insertion order, and scalars);
  - `in`, `[]`, `.items()`, iteration and `.index`, each with the exception it raises
    on a value of the wrong kind.
- `validation_stops.dfy` (module `ValidationStops`) proves, for every configuration,
  where the placeholder loop of `validate_variables` stops: a self reference, an
  undeclared inner variable, and the skip of placeholders once the declaration is in
  `checked_vars`. Each is lifted to the verdict of `validate_variables` for a
  variable that the checks reach.
- `validation_examples.dfy` states the validator model's verdict on concrete
  configurations from the test suite.

Where the code and its documentation or tests disagree, the model follows the code:

- `validate_boost_file` reads `boost_data["vars"]` without checking that the key exists
  (boostbuild/validations.py:81). A target that uses variables in a file without a
  `vars` section therefore raises `KeyError` there; it is not reported as a badly
  formatted section.
- The shape check of the `boost` section (boostbuild/validations.py:68) comes after the
  loop over `boost.items()`. A non-empty section that is not a mapping raises
  `AttributeError` in that loop. So `BAD_FORMAT_BOOST_SECTION` is never returned, and
  `SectionVerdict` proves it.
- The name whitelist holds letters, `_` and `-` only. The target name `example2`, which
  the tests use, does not pass the name check of `validate_boost_file`
  (`NameExamples`).
- `get_required_vars_dict` keeps, for each variable, the *last* line that uses it.
  tests/test_utils.py:41-48 expects the first (`RequiredVarsKeepsLast`,
  `RequiredVarsKeepsLastExample`).
- The generator at boostbuild/validations.py:145-147 yields the declaration being
  checked, not the one that contains the placeholder. Once that declaration has been
  recorded as checked, a later self reference in the same value is skipped
  (`SelfReferenceAfterOtherExample`).
- `check_inner_variables` formats `MISSING_VARIABLE`, which has three fields, with one
  argument (boostbuild/context.py:235). Python raises `IndexError` there, and the model
  raises `IndexError`.
- boostbuild/context.py imports `MISSING_VARS_SECTION` and `EMPTY_VARS_SECTION`, which
  boostbuild/errors.py does not define. The model gives them constructors of their own
  so that `load_context` can be stated at all.

## Model

| member | source | states |
|---|---|---|
| Scanner.Spans | boostbuild/utils.py:15 | every match lies inside the text, at or after the scan position |
| Scanner.SpansAreMatches | boostbuild/utils.py:15 | each match is a placeholder body (a `{` before it, the next `}` after it, no line break in it); the matches come left to right without overlapping; after an empty match, a match at the same place is not empty |
| Scanner.StopAt | boostbuild/utils.py:15 | the lazy `.*?` stops at the first `}` or line break at or after the start, or at the end of the text |
| Scanner.Bodies | boostbuild/utils.py:15 | `findall` returns the text of each match, one per match, in order |
| Scanner.PlaceholdersOccur | boostbuild/utils.py:15 | every name found, wrapped in braces, occurs in the text, and holds no line break |
| Scanner.NoOpenBraceNoVariables | boostbuild/utils.py:15 | a text without `{` has no placeholder |
| Scanner.PlaceholderIsIndexable | boostbuild/validations.py:157 | `str.index` of a found placeholder, wrapped in braces, cannot raise `ValueError` |
| Scanner.MatchHere | boostbuild/utils.py:15 | a `{`, a run without `}` or line break, and a `}` give exactly one match |
| Scanner.SkipPlain | boostbuild/utils.py:15 | positions not preceded by `{` yield no match |
| Scanner.ExampleTwoPlaceholders | tests/test_utils.py:24 | `"hey im a {example} with other {examples}"` gives `["example", "examples"]` |
| Scanner.ExamplePlaceholderAtEnd | tests/test_utils.py:25 | `"another one {coming}"` gives `["coming"]` |
| Scanner.ExampleTextAfterPlaceholder | tests/test_utils.py:26 | `"im the last{one}l"` gives `["one"]` |
| Scanner.ExampleEmptyPlaceholder | tests/test_utils.py:27 | `"kidding {}"` gives `[""]` |
| Scanner.ExampleEmptyThenBrace | boostbuild/utils.py:15 | `"{}}"` gives `["", "}"]`, because a non-empty match may start where an empty one did |
| Scanner.ExampleRepeated | boostbuild/utils.py:15 | a placeholder used twice is found twice |
| Scanner.ExampleNewline | boostbuild/utils.py:15 | a placeholder cannot span a line break |
| Errors.Marker | boostbuild/errors.py:23-27 | the marker line has the requested length, with `^` at the position and `-` elsewhere |
| Errors.HintText | boostbuild/errors.py:4-29 | the hint is the text, a line break, a marker line as long as the stripped text, a line break and the message, in that order and with those lengths |
| Errors.MarkerCaret | boostbuild/errors.py:23-27 | the marker line holds a `^` exactly when the position lies inside the stripped text, and only at that position |
| Errors.BuildErrorHinting | boostbuild/errors.py:22-29 | the loop that appends one marker character per step returns exactly `HintText` |
| Errors.DocumentedHint | boostbuild/errors.py:7-12 | the example in the function's documentation comes out as written there |
| Text.StripIgnoresTrailingNewline | boostbuild/errors.py:22-23 | stripping ignores the line break appended before the marker loop, so the marker is as long as the stripped text |
| Text.JoinSplit | boostbuild/context.py:189 | joining the pieces of a split with the separator gives back the text |
| Text.SplitJoin | boostbuild/context.py:117 | splitting pieces joined by a separator they do not contain gives back the pieces |
| Text.IndexOf | boostbuild/validations.py:157 | `str.index` finds the first occurrence, and fails exactly when there is none |
| Builtins.PyIn | boostbuild/validations.py:53 | `in` is a substring test on strings and a key test on mappings, and raises `TypeError` on scalars |
| Builtins.PyGetItem | boostbuild/context.py:161 | indexing by a string succeeds only on a mapping holding the key, with the value stored under it; a missing key raises `KeyError` |
| Builtins.Items | boostbuild/validations.py:61 | `.items()` exists only on mappings and lists the entries in order |
| Builtins.PyIndex | boostbuild/validations.py:157 | `.index` gives a position where the needle occurs; mappings and scalars raise `AttributeError` |
| Builtins.FindAll | boostbuild/context.py:175 | `re.findall` succeeds exactly on a string and then returns `find_variables_in` of it; anything else raises `TypeError` |
| Builtins.StripValue | boostbuild/validations.py:212 | `.strip()` succeeds exactly on a string; anything else raises `AttributeError` |
| Validations.AsciiLettersMembership | boostbuild/validations.py:223-224 | a character is in `string.ascii_letters` exactly when it is an ASCII letter |
| Validations.NameAllowedIff | boostbuild/validations.py:224 | a name passes the character check exactly when every character is an ASCII letter, `_` or `-` |
| Validations.AttributesAllowedIff | boostbuild/validations.py:223 | an attributes text passes the character check exactly when every character is an ASCII letter or `,` |
| Validations.FirstBadName | boostbuild/validations.py:61-65 | none is returned exactly when every name is allowed; otherwise the result is a name that fails, and every name before it passes |
| Validations.FirstBadNameAt | boostbuild/validations.py:61-65 | the name reported is the first that fails the check |
| Validations.SelectTarget | boostbuild/validations.py:181-195 | a given target is kept; an empty one selects the first target of the section |
| Validations.DictKeys | boostbuild/validations.py:210 | the keys of the dictionary, in insertion order |
| Validations.GetKeys | boostbuild/validations.py:210 | a key has a value exactly when it is among the keys |
| Validations.PutGet | boostbuild/validations.py:215 | after `d[k] = o`, `k` maps to `o` and every other key is unchanged |
| Validations.PutKeys | boostbuild/validations.py:215 | assigning an existing key keeps its place; a new key is appended |
| Validations.PopGet | boostbuild/validations.py:140 | after `d.pop(k, None)`, `k` is absent and every other key is unchanged |
| Validations.Occurrences | boostbuild/validations.py:211-212 | visiting the targets raises only `AttributeError`, which happens when a target's text is not a string |
| Validations.OccurrencesRaise | boostbuild/validations.py:212 | a target whose text is not a string makes the whole computation raise `AttributeError` |
| Validations.AssignLine | boostbuild/validations.py:214-215 | the innermost loop assigns the placeholders of one line in order |
| Validations.AssignLines | boostbuild/validations.py:213-215 | the middle loop assigns the placeholders of every line of one target in order |
| Validations.GetRequiredVarsDict | boostbuild/validations.py:198-216 | the method returns exactly the dictionary built by assigning every (variable, target and line) pair in visiting order |
| Validations.OccurrencesMembers | boostbuild/validations.py:211-215 | the pairs visited are exactly the placeholders of the command lines of the targets |
| Validations.RequiredSplit | boostbuild/validations.py:211-214 | a variable is required by a line of the targets exactly when it is required by a line of all but the last target, or by a line of the last one |
| Validations.AssignLast | boostbuild/validations.py:215 | a name has an entry exactly when some pair assigns it, and the entry is the origin of its last pair |
| Validations.RequiredVarsSound | boostbuild/validations.py:198-216 | each entry of the result is a placeholder of the line it records, and that line is a command line of the target it records |
| Validations.RequiredVarsComplete | boostbuild/validations.py:198-216 | every placeholder of every command line of every target has an entry |
| Validations.RequiredVarsKeepsLast | boostbuild/validations.py:215 | two targets with the same one-line command using one variable: the entry records the second target |
| Validations.RequiredVarsKeepsLastExample | tests/test_utils.py:34-48 | the same for the text `{v}`, where the test suite expects the first target |
| Validations.FirstUnsupported | boostbuild/validations.py:124-126 | none is returned exactly when every attribute is supported; otherwise the result is the first attribute of the list that is unsupported, every one before it being supported |
| Validations.AttributesVerdict | boostbuild/validations.py:111-127 | a value that is not a string is badly formatted; one with a character outside the whitelist is reported |
| Validations.AttributesVerdictIff | boostbuild/validations.py:111-127 | the attributes pass exactly when they are a string within the whitelist whose every comma-separated attribute is `secret` or `exec`, and an unsupported-attribute error names the first attribute of the list that is neither |
| Validations.HintAt | boostbuild/validations.py:155-167 | the hint always ends the check: it is an error string exactly when the value is a string holding the placeholder, with the caret on an occurrence of it; otherwise Python raises |
| Validations.Declaring | boostbuild/validations.py:145-147 | the generator yields the declaration being checked as soon as some declaration contains the name, and nothing when none does |
| Validations.ValueUnder | boostbuild/validations.py:161-162 | the first value stored under the name in a declaration, or none when the name is not a key |
| Validations.CheckRefs | boostbuild/validations.py:144-167 | every error of the placeholder loop is a hinted error or one of the validator's plain messages |
| Validations.CheckItems | boostbuild/validations.py:110-169 | every error of the entry loop is one of the validator's messages |
| Validations.CheckDecls | boostbuild/validations.py:108-169 | every error of the declaration loop is one of the validator's messages |
| Validations.VariablesVerdict | boostbuild/validations.py:93-178 | every error of `validate_variables` is one of its own messages, never one of `validate_boost_file`'s |
| Validations.CheckReferences | boostbuild/validations.py:144-167 | the loop with `checked_vars` returns exactly what `CheckRefs` specifies |
| Validations.CheckDeclaration | boostbuild/validations.py:109-169 | the loop with `single_key_found`, the `pop` and `checked_vars` returns exactly what `CheckItems` specifies |
| Validations.ValidateVariables | boostbuild/validations.py:93-178 | the method returns exactly `VariablesVerdict` |
| Validations.BoostFileVerdict | boostbuild/validations.py:52-54 | the missing-section error is returned exactly when `"boost" in data` is false; otherwise the section checks decide, and a file that is not a mapping never passes |
| Validations.SectionVerdict | boostbuild/validations.py:56-90 | the empty-section error is returned exactly for a falsy section; a non-mapping section raises `AttributeError`, so the shape error never occurs; the first bad target name is reported; a missing target is reported only when one was asked for and is absent; a pass means a non-empty mapping with good names that holds the selected target |
| Validations.TargetVerdict | boostbuild/validations.py:71-90 | the errors are a missing target, a badly formatted `vars` section or a `validate_variables` error; a target without placeholders passes; a non-string target raises `TypeError`; with placeholders, a missing `vars` key raises `KeyError`, a non-list is badly formatted, and otherwise the file passes exactly when `validate_variables` does |
| Validations.CheckTargetNames | boostbuild/validations.py:61-65 | the loop returns the first target name that fails the check |
| Validations.ValidateBoostFile | boostbuild/validations.py:52-90 | the early returns, in order, give exactly `BoostFileVerdict` |
| Validations.ItemsRequired | boostbuild/validations.py:130-140 | checking one declaration removes from the required variables exactly the variable it declares |
| Validations.ItemsRest | boostbuild/validations.py:127-169 | once a declaration has declared its variable, an accepted declaration has only `attributes` keys left |
| Validations.DeclsRequired | boostbuild/validations.py:108-140 | checking the declarations removes from the required variables exactly the variables they declare |
| Validations.ItemsHead | boostbuild/validations.py:110-168 | one accepted entry is either valid attributes, or the declaration's first variable with a good name and a string value |
| Validations.ItemsWellFormed | boostbuild/validations.py:110-169 | an accepted declaration has valid attributes, good names with string values, and nothing but `attributes` after its variable |
| Validations.DeclsWellFormed | boostbuild/validations.py:108-169 | every accepted declaration is a well-formed mapping |
| Validations.VariablesVerdictSound | boostbuild/validations.py:93-178 | when `validate_variables` passes, every declaration is well formed and every placeholder of every command line is declared |
| ValidationStops.DeclaringFirst | boostbuild/validations.py:145-147 | the generator yields the declaration being checked once it meets a declaration containing the name with no scalar before it |
| ValidationStops.DeclaringNone | boostbuild/validations.py:145-147 | the generator yields nothing when no declaration contains the name |
| ValidationStops.SelfReferenceReported | boostbuild/validations.py:144-167 | a placeholder that is a key of the unchecked declaration being checked stops the loop with `SELF_VAR_REQUEST`, the caret on its first occurrence in the value under that key, or raises when that value does not hold it |
| ValidationStops.MissingInnerReported | boostbuild/validations.py:144-159 | a placeholder no declaration contains stops the loop with `MISSING_VARIABLE` naming the variable declared, the caret on its first occurrence in the value, or raises `ValueError` when the value does not hold it |
| ValidationStops.DeclaredElsewhereRecorded | boostbuild/validations.py:145-153 | a placeholder held by another declaration, and not a key of this one, only records this declaration as checked |
| ValidationStops.CheckedSkipsRest | boostbuild/validations.py:145-152 | once this declaration is checked, every later placeholder for which the generator yields a declaration is skipped, a self reference included, and the loop passes with the checked list unchanged |
| ValidationStops.RefsChecked | boostbuild/validations.py:144-152 | when the placeholder loop passes, the checked list is unchanged or has gained the declaration being checked, which it did not hold before |
| ValidationStops.ItemsChecked | boostbuild/validations.py:110-169 | when a declaration is accepted, the checked list is unchanged or has gained that declaration; once its variable was already found the list is unchanged |
| ValidationStops.ScanBefore | boostbuild/validations.py:108-169 | when the first declarations are accepted they are mappings, and the checked list holds only them |
| ValidationStops.ScanBeforeDecls | boostbuild/validations.py:108-169 | checking all declarations is checking the rest in the state the first ones leave |
| ValidationStops.ItemsSkipAttributes | boostbuild/validations.py:110-128 | `attributes` entries that pass are stepped over by the entry loop |
| ValidationStops.PlaceholderErrorIsVerdict | boostbuild/validations.py:93-169 | once a declaration's variable is reached, an error of its placeholder loop is the verdict of `validate_variables` |
| ValidationStops.SelfReferenceVerdict | boostbuild/validations.py:161-167 | when the first placeholder of a reached variable's value is a key of its own declaration holding a string that contains it, the verdict is `SELF_VAR_REQUEST` with the caret in that string |
| ValidationStops.OwnNameVerdict | boostbuild/validations.py:161-167 | a variable whose first placeholder is itself gets `SELF_VAR_REQUEST`, with the caret on that placeholder in its value |
| ValidationStops.MissingInnerVerdict | boostbuild/validations.py:154-159 | when no declaration contains the first placeholder of a reached variable's value, the verdict is `MISSING_VARIABLE` for it, naming the variable, with the caret on it in the value |
| ValidationStops.FirstElsewhereSkipsRest | boostbuild/validations.py:145-153 | when the first placeholder of a reached variable's value belongs to another declaration and every placeholder is declared, the value passes and only records its declaration, even with a later self reference |
| Validations.UndeclaredVariableReported | boostbuild/validations.py:171-176 | a required variable that is left over is reported as missing, with the caret on its placeholder in the recorded line; it is a placeholder of that line and no declaration declares it |
| ValidationExamples.NameExamples | tests/test_validations.py:75-97 | `example-` and `example_` are allowed names; `example:`, `example%` and `example2` are not |
| ValidationExamples.BadTargetNameExample | tests/test_validations.py:92-97 | with targets `example%` and `example2`, the first is reported |
| ValidationExamples.MissingSectionExample | tests/test_validations.py:57-61 | a file without `boost` gets the missing-section error |
| ValidationExamples.EmptySectionExample | tests/test_validations.py:68-72 | an empty-string `boost` section gets the empty-section error |
| ValidationExamples.TargetSelectionExample | tests/test_validations.py:114-127 | an existing target passes; `asd` is reported missing |
| ValidationExamples.AttributesFormatExamples | tests/test_validations.py:130-142 | a list and `null` are badly formatted attributes |
| ValidationExamples.AttributesCharsExamples | tests/test_validations.py:155-163 | `123` and `asd_asd` have characters outside the whitelist |
| ValidationExamples.AttributesEmptyExample | boostbuild/validations.py:123-126 | the empty attributes text splits into one empty, unsupported attribute |
| ValidationExamples.AttributesSupportedExample | boostbuild/validations.py:220 | `secret,exec` passes |
| ValidationExamples.SelfReferenceExample | boostbuild/validations.py:161-167 | `a: "{a}"` is reported as a self reference, with the caret at 0 |
| ValidationExamples.SelfReferenceAfterOtherExample | boostbuild/validations.py:145-152 | `a: "{b}{a}"` next to `b: "x"` is accepted |
| Context.Variable.constructor | boostbuild/context.py:25-37 | the fields hold the arguments |
| Context.Variable.GetValue | boostbuild/context.py:39-46 | with `secret` requested and `"secret" in attributes`, the result is the mask; without either, the value; `in` raises exactly on scalar attributes |
| Context.PlaceholderName | boostbuild/context.py:110-111 | the argument is the name wrapped in braces |
| Context.ExpandArg | boostbuild/context.py:107-113 | a whole-token placeholder becomes its variable's value, or raises `KeyError` for an unknown name; any other argument stays as it is |
| Context.ExpandShape | boostbuild/context.py:106-114 | replacement succeeds exactly when every argument can be replaced, keeps the number and order of the arguments, and replaces each one on its own |
| Context.ExpandRaisesEarly | boostbuild/context.py:106-114 | the first exception while replacing is the exception of the whole call |
| Context.SecretsMasked | boostbuild/context.py:116-117 | with secrets hidden, a secret variable's placeholder shows as the mask |
| Context.Command.constructor | boostbuild/context.py:52-61 | the fields hold the arguments |
| Context.Command.GetArguments | boostbuild/context.py:95-114 | the loop returns exactly `Expand` of the arguments |
| Context.Command.Call | boostbuild/context.py:70-81 | without a registered implementation the command name is inserted in front of the arguments, in place; the replaced arguments are returned; nothing else changes |
| Context.ShowExample | boostbuild/context.py:116-117 | `echo {pw} x` with a secret `pw` shows as `echo ***** x` |
| Context.ShowSplits | boostbuild/context.py:116-117 | the shown command splits on spaces into the command and its replaced arguments, when none holds a space |
| Context.FirstContaining | boostbuild/context.py:229-231 | the first item containing the key, or none when no item does |
| Context.VariableTables.constructor | boostbuild/context.py:162-176 | both tables start empty |
| Context.VariableTables.CheckInnerVariables | boostbuild/context.py:200-276 | the tables stay valid and never lose or overwrite an entry; a known variable returns its shared object and is added to the command table; an undeclared one raises `IndexError`; a self reference as the first placeholder is reported, and a new variable's value never names the variable itself; any other error string is the error of one of the placeholders of the declared value with ` from key` added; a new variable is fresh, holds its outputs, and all its placeholders land in the command table |
| Context.VariableTables.CreateVariable | boostbuild/context.py:228-276 | the same for a name not yet in the general table: a variable is built only when its value does not name itself |
| Context.VariableTables.BuildVariable | boostbuild/context.py:239-276 | an error is the self reference or the error of one of the placeholders with ` from key` added; a value that names the variable is never built; after resolving the placeholders, the new variable is registered in both tables and its output list ends with it |
| Context.VariableTables.ResolveReference | boostbuild/context.py:247-249 | a recursive call keeps the tables valid and growing, and on success puts the name in the command table |
| Context.VariableTables.ResolveReferences | boostbuild/context.py:240-258 | on success no placeholder names the variable and all of them land in the command table; an error is the self reference or the error of one of the placeholders with ` from key` added; a self reference is reported only for a placeholder naming the variable, and always when the first one does |
| Context.DeclarationRead | boostbuild/context.py:229-239 | the declaration found is a mapping holding the text of the variable |
| Context.VariableTables.ResolvePlaceholders | boostbuild/context.py:177-187 | every placeholder of the line lands in the command table; an error belongs to one of them |
| Context.VariableTables.ReadCommand | boostbuild/context.py:165-193 | a missing or empty `vars` section is reported even for a line without placeholders; a built command has the line's first word, the remaining words and every placeholder of the line, each bound to the shared object of the general table |
| Context.VariableTables.ReadCommands | boostbuild/context.py:164-193 | one command per line, each built from its line; the `vars` errors come before anything else |
| Context.BuiltCommandGrows | boostbuild/context.py:164-193 | a command stays consistent with the general table as the table grows |
| Context.BuiltCommandRejoins | boostbuild/context.py:189-192 | a built command and its arguments, joined by spaces, give back the line |
| Context.Selection | boostbuild/context.py:144-161 | the missing- and empty-section errors exactly as in the validator; an absent requested target is reported; on success, the selected target of a non-empty mapping and its text; every selectable string target succeeds |
| Context.TargetText | boostbuild/context.py:161 | the text under the target, when it is a string |
| Context.ValidatedFileSelects | boostbuild/context.py:144-161 | a file that `validate_boost_file` accepts loads the same target without an error |
| Context.LoadContext | boostbuild/context.py:120-197 | a missing file, missing or empty `boost` section or missing target is reported before the target is recorded; a missing or empty `vars` section is reported for the recorded target; a built context has one command per command line, each from its line, and variables each built from its declaration |

## Left out

- Reading the file and parsing YAML (boostbuild/validations.py:49-50,
  boostbuild/context.py:140-141) are not modelled. The model starts from the loaded tree,
  and the file's existence is a parameter of `LoadContext`.
- The import of `MISSING_VARS_SECTION` and `EMPTY_VARS_SECTION` at
  boostbuild/context.py:11-17: boostbuild/errors.py does not define them, so importing
  the module raises `ImportError` and `load_context` cannot run as written. The model
  assumes the two messages exist and gives them constructors of their own.
- The rendered wording of messages: the templates are constructors carrying their format
  arguments, and `build_error_hinting` is modelled over those arguments.
- `Command.call` beyond the argument list: the module import, the OS dispatch and the
  command implementations under boostbuild/cmd are left out, because they are dynamic
  imports and process execution. `UNSUPORTED_OS` is therefore never produced. Whether an
  implementation is registered is a parameter of `Call`.
- The `exec` attribute: the code shown checks it as an allowed attribute name and
  never evaluates a value that carries it; `Variable.get_value` returns the value as
  it is, so the model does the same.
- Context.VariableTables.CheckInnerVariables: the recursion depth is bounded by a `fuel`
  parameter. Where Python would exhaust its stack on a cycle of declarations, the model
  raises `RecursionError` when the fuel is spent.
- Context.VariableTables.CheckInnerVariables: on an error, the model returns only the
  error. Python returns the partial output list with the error string at its end, and
  its caller reads only the error.
- Context.VariableTables.ReadCommand: the command holds the command table as a map
  value. Python shares the dictionary object, but no one changes it after the command is
  built.
- The dictionaries `general_variables` and `command_variables` are Dafny maps, so their
  insertion order is not kept. Nothing in the core reads that order.
- Mapping keys in the YAML tree are strings. Numeric or boolean keys are not modelled.
- A mapping in the YAML tree may repeat a key, which a loaded YAML mapping never does.
  The lemmas over mappings therefore also cover trees that cannot occur; on such a tree
  every lookup takes the first entry with the key.
- Declarations in `checked_vars` are compared as sequences of entries. Two declarations
  with the same entries in a different order compare unequal here, while Python finds
  them equal.
- The old test helpers (`validate_missing_boost_section` and the like, and
  `from_yaml_to_dict`) do not exist in the modelled code. Their cases are stated against
  `validate_boost_file` instead.
