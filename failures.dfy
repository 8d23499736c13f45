/**
 Structured failures of the exercise verifier.

 A check that fails does not produce a rendered sentence: it carries a
 `printf`-style message template and the ordered arguments that fill it, so
 that whoever presents the failure decides how to render it. Resolving an
 exercise that does not exist is a second, separate kind of failure: a usage
 error, not a fault in the submitted commits.
 */
module Failures {

  /** One argument of a message template: `%d` takes an integer, `%s` a string. */
  datatype Arg = Int(n: int) | Str(s: string)

  datatype Failure =
    | VerificationFailure(message: string, args: seq<Arg>)  // a violated check
    | WrongExercise(reason: string)                         // the exercise name is not registered

  /** The outcome of an operation that either yields a value or fails. */
  datatype Result<+T> = Ok(value: T) | Err(failure: Failure) {

    predicate IsFailure() {
      Err?
    }

    function PropagateFailure<U>(): Result<U>
      requires Err?
    {
      Err(failure)
    }

    function Extract(): T
      requires Ok?
    {
      value
    }
  }

  /**
   The conversion characters of a template, in order: every `%c` contributes
   `c`, except `%%`, which is a literal percent sign. The templates used by
   the verifier have no flags, widths or precisions.
   */
  function Conversions(template: string): seq<char>
    decreases |template|
  {
    if |template| < 2 then []
    else if template[0] != '%' then Conversions(template[1..])
    else if template[1] == '%' then Conversions(template[2..])
    else [template[1]] + Conversions(template[2..])
  }

  /** Text without a percent sign in front of a template adds no conversions. */
  lemma {:induction false} ConversionsOfPlainPrefix(text: string, rest: string)
    requires '%' !in text
    ensures Conversions(text + rest) == Conversions(rest)
    decreases |text|
  {
    if |text| == 0 {
      assert text + rest == rest;
    } else {
      assert (text + rest)[1..] == text[1..] + rest;
      assert text[0] in text;
      assert '%' !in text[1..] by {
        forall i | 0 <= i < |text[1..]| ensures text[1..][i] != '%' {
          assert text[1..][i] == text[i + 1];
        }
      }
      ConversionsOfPlainPrefix(text[1..], rest);
    }
  }

  /** A placeholder `%c`, other than `%%`. */
  predicate IsPlaceholder(p: string) {
    |p| == 2 && p[0] == '%' && p[1] != '%'
  }

  /** A placeholder in front of a template contributes its conversion. */
  lemma ConversionsOfPlaceholder(p: string, rest: string)
    requires IsPlaceholder(p)
    ensures Conversions(p + rest) == [p[1]] + Conversions(rest)
  {
    assert (p + rest)[2..] == rest;
  }

  /** An argument has the kind its conversion asks for. */
  predicate Fits(conversion: char, arg: Arg) {
    match conversion
    case 'd' => arg.Int?
    case 's' => arg.Str?
    case _ => false
  }

  /**
   A verification failure is well formed when its arguments match the
   placeholders of its template in number, order and kind.
   */
  predicate WellFormed(f: Failure) {
    match f
    case VerificationFailure(message, args) =>
      var cs := Conversions(message);
      |cs| == |args| && forall i :: 0 <= i < |args| ==> Fits(cs[i], args[i])
    case WrongExercise(_) => true
  }
}
