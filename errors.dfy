/**
 * The error side of boostbuild/errors.py: the message templates, the outcome of every
 * fallible step, and `build_error_hinting`, which renders a line of text, a marker line
 * pointing at one character of it, and a message.
 *
 * The templates are modelled as constructors that carry their format arguments; the
 * exact wording of the rendered messages is not part of the model.
 */
module Errors {
  import opened Text
  import opened Tree

  /** The message templates. `MissingVarsSection` and `EmptyVarsSection` are used by
      boostbuild/context.py, which imports them from boostbuild/errors.py, where they
      are not defined. */
  datatype Message =
    | UnsupportedOs(command: string)
    | FileFolderDoesntExist(path: string)
    | MissingBoostSection
    | EmptyBoostSection
    | MissingTarget(target: string)
    | MissingVariable(variable: string, kind: string, owner: string)
    | SelfVarRequest(variable: string)
    | BadFormatBoostSection
    | BadFormatVarsSection
    | UnknownKey(key: string)
    | UnsupportedVarAttribute(attribute: string, variable: string)
    | BadFormatAttributes(attributes: Value, variable: string)
    | NotAllowedCharacters(kind: string, name: string, allowed: string)
    | MissingVarsSection
    | EmptyVarsSection

  /** An error string the engine returns instead of a result: a bare message, a message
      rendered by `build_error_hinting` under `text` with the marker at `position`, or
      an error of a nested variable with `" from <variable>"` appended. */
  datatype Failure =
    | Plain(msg: Message)
    | Hinted(text: string, position: int, msg: Message)
    | From(cause: Failure, variable: string)

  /** The Python exceptions the engine can raise on malformed input. */
  datatype PyError =
    | KeyError(key: string)
    | TypeError
    | AttributeError
    | ValueError
    | IndexError
    | RecursionError

  /** The outcome of a step: a value, an error string (`Fail`), or an exception (`Raise`). */
  datatype Outcome<+T> = Ok(value: T) | Fail(failure: Failure) | Raise(error: PyError)
  {
    predicate IsFailure()
    {
      !Ok?
    }

    function PropagateFailure<U>(): Outcome<U>
      requires IsFailure()
    {
      if Fail? then Fail(failure) else Raise(error)
    }

    function Extract(): T
      requires Ok?
    {
      value
    }
  }

  /** The character the marker line holds at index `i`. */
  function MarkerChar(i: int, position: int): char
  {
    if i == position then '^' else '-'
  }

  /** The first `n` characters of the marker line for `position`. */
  function Marker(n: nat, position: int): (m: string)
    ensures |m| == n
    ensures forall i :: 0 <= i < n ==> m[i] == MarkerChar(i, position)
  {
    if n == 0 then [] else Marker(n - 1, position) + [MarkerChar(n - 1, position)]
  }

  /** What `build_error_hinting(error, position, message)` returns: the text and a line
      break, a marker line as long as the stripped text with `^` at `position` (when it
      falls inside) and `-` elsewhere, then a line break and the message. */
  function HintText(error: string, position: int, message: string): (r: string)
    ensures |r| == |error| + |Strip(error)| + 2 + |message|
    ensures r[..|error| + 1] == error + "\n"
    ensures r[|error| + 1..|error| + 1 + |Strip(error)|] == Marker(|Strip(error)|, position)
    ensures r[|error| + 1 + |Strip(error)|..] == "\n" + message
  {
    StripIgnoresTrailingNewline(error);
    var m := Marker(|Strip(error + "\n")|, position);
    var head := error + "\n";
    var tail := "\n" + message;
    assert (head + m + tail)[..|head|] == head;
    assert (head + m + tail)[|head|..|head| + |m|] == m;
    assert (head + m + tail)[|head| + |m|..] == tail;
    head + m + tail
  }

  /** The marker line holds a caret exactly when the position falls inside the stripped
      text, and then only at that position. */
  lemma MarkerCaret(n: nat, position: int)
    ensures '^' in Marker(n, position) <==> 0 <= position < n
    ensures forall i :: 0 <= i < n && Marker(n, position)[i] == '^' ==> i == position
  {
    var m := Marker(n, position);
    if 0 <= position < n {
      assert m[position] == '^';
    }
  }

  /** `build_error_hinting`: grows the text one marker character at a time. */
  method BuildErrorHinting(error: string, position: int, message: string) returns (r: string)
    ensures r == HintText(error, position, message)
  {
    r := error + "\n";
    var n := |Strip(r)|;
    var i := 0;
    while i < n
      invariant 0 <= i <= n
      invariant r == error + "\n" + Marker(i, position)
    {
      if i != position {
        r := r + "-";
      } else {
        r := r + "^";
      }
      i := i + 1;
    }
    r := r + "\n" + message;
  }

  /** The example in the documentation of `build_error_hinting`. */
  lemma DocumentedHint(error: string, message: string)
    requires error == "variable: exec exec pwd"
    ensures HintText(error, 15, message) == error + "\n" + "---------------^-------" + "\n" + message
  {
    assert LStrip(error) == error;
    assert RStrip(error) == error;
    assert |Strip(error)| == 23;
    var r := HintText(error, 15, message);
    DocumentedMarker("---------------^-------");
    assert r == r[..|error| + 1] + r[|error| + 1..|error| + 24] + r[|error| + 24..];
  }

  /** The marker line of that example: fifteen `-`, the `^`, seven `-`. */
  lemma DocumentedMarker(m: string)
    requires m == "---------------^-------"
    ensures Marker(23, 15) == m
  {
    var mk := Marker(23, 15);
    forall i | 0 <= i < 23
      ensures mk[i] == m[i]
    {
      if i < 15 {
        assert m[..15] == "---------------";
        assert m[i] == m[..15][i];
      } else if i > 15 {
        assert m[16..] == "-------";
        assert m[i] == m[16..][i - 16];
      }
    }
  }
}
