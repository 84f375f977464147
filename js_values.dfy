/** JavaScript values as the enforcer sees them, and the few built-in
    operations on them that it relies on: `String(v)`, `toLowerCase`,
    `slice(0, 2) === 'on'` and reading/writing an element of an
    argument list. */
module JsValues {

  datatype Option<+T> = None | Some(value: T)

  /** A JavaScript value. Only the distinctions the enforcer makes are kept:
      `null`, `typeof v === 'function'`, strings, and everything else.
      `text` is what `String(v)` yields for a function or an object. */
  datatype Value =
    | Undefined
    | Null
    | Str(s: string)
    | Func(id: nat, text: string)
    | Other(id: nat, text: string)

  /** `String(v)` */
  function ToJsString(v: Value): string
  {
    match v
    case Undefined => "undefined"
    case Null => "null"
    case Str(s) => s
    case Func(_, text) => text
    case Other(_, text) => text
  }

  function LowerChar(c: char): char
  {
    if 'A' <= c <= 'Z' then (c as int + 32) as char else c
  }

  predicate IsLower(s: string)
  {
    forall i :: 0 <= i < |s| ==> LowerChar(s[i]) == s[i]
  }

  /** `s.toLowerCase()`, restricted to the ASCII letters. */
  function ToLowerCase(s: string): (r: string)
    ensures |r| == |s| && IsLower(r)
    ensures forall i :: 0 <= i < |s| ==> r[i] == LowerChar(s[i])
    ensures IsLower(s) ==> r == s
  {
    seq(|s|, i requires 0 <= i < |s| => LowerChar(s[i]))
  }

  /** `s.slice(0, 2) === 'on'`: the prefix of an inline event handler name. */
  predicate StartsWithOn(s: string)
  {
    |s| >= 2 && s[0] == 'o' && s[1] == 'n'
  }

  /** `args[i]`: a missing argument reads as `undefined`. */
  function ArgAt(args: seq<Value>, i: nat): Value
  {
    if i < |args| then args[i] else Undefined
  }

  /** `args[i] = v` on a JavaScript array: an index past the end grows the
      array, and the holes it leaves read as `undefined`. */
  function SetArg(args: seq<Value>, i: nat, v: Value): (r: seq<Value>)
    ensures |r| == if i < |args| then |args| else i + 1
    ensures ArgAt(r, i) == v
    ensures forall j :: 0 <= j < |r| && j != i ==> r[j] == ArgAt(args, j)
  {
    if i < |args| then args[i := v]
    else args + seq(i - |args|, _ => Undefined) + [v]
  }
}
