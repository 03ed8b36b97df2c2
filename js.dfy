/**
 * The parts of the JavaScript runtime the framework leans on: values and their
 * truthiness, thrown errors, completions (a returned value or a thrown error)
 * and a mutable array of strings, the shape of every token list the framework
 * passes around and `shift`s in place.
 */
module Js {

  datatype Option<+T> = None | Some(value: T) {
    function GetOr(default: T): T {
      match this
      case Some(v) => v
      case None => default
    }
  }

  /**
   * A JavaScript value as far as the framework looks at it. Objects it does not
   * look into (a message, an emoji, a member) are `Object(id)`; arrays are `List`;
   * plain records such as a reaction `{msg, emoji, reactor}` are `Record`.
   * Numbers are integers: NaN and fractions are not modelled.
   */
  datatype Value =
    | Undefined
    | Null
    | Bool(b: bool)
    | Number(n: int)
    | Str(s: string)
    | Object(id: nat)
    | List(items: seq<Value>)
    | Record(fields: map<string, Value>)

  /** `!v` in JavaScript: undefined, null, false, 0 and "" are the falsy values. */
  predicate Falsy(v: Value) {
    v.Undefined? || v.Null? || v == Bool(false) || v == Number(0) || v == Str("")
  }

  predicate Truthy(v: Value) {
    !Falsy(v)
  }

  /**
   * An error raised while a step runs. `TypeError`/`ReferenceError` are the ones
   * the framework constructs with its own message; `RuntimeTypeError` is one the
   * engine raises (calling a method of `undefined`, calling `null`), described by
   * what went wrong rather than by the engine's wording.
   */
  datatype JsError =
    | TypeError(message: string)
    | ReferenceError(message: string)
    | RuntimeTypeError(cause: string)

  /** How a step ends: it returns a value, or it throws. */
  datatype Completion<+T> = Normal(value: T) | Abrupt(error: JsError)

  /** A JavaScript array of strings, mutated in place by `shift`. */
  class StringArray {
    var items: seq<string>

    constructor (items: seq<string>)
      ensures this.items == items
    {
      this.items := items;
    }

    /** `Array.prototype.shift`: removes and returns the first element, `undefined` when empty. */
    method Shift() returns (first: Option<string>)
      modifies this
      ensures old(items) == [] ==> first == None && items == []
      ensures old(items) != [] ==> first == Some(old(items)[0]) && items == old(items)[1..]
    {
      if items == [] {
        first := None;
      } else {
        first := Some(items[0]);
        items := items[1..];
      }
    }
  }
}
