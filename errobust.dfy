/**
 * A status-coded error value and the helpers that classify an arbitrary
 * error by its code (package errobust).
 */
module Errobust {
  import opened Wrappers
  import Decimal

  /** The three named codes: HTTP 409, 404 and 500. */
  const Conflict: int := 409
  const NotFound: int := 404
  const Unhandled: int := 500

  /** An error carrying a message and an integer code, both fixed at construction. */
  datatype Error = Error(msg: string, code: int) {

    /** Go's `Error()` method: `error[<code>]: <message>`, from which both fields can be read back. */
    function ErrorString(): (s: string)
      ensures ParseRendered(s) == Some(this)
    {
      ParseRenderedInverts(msg, code);
      "error[" + Decimal.IntToString(code) + "]: " + msg
    }

    /** The code; together with the message it determines the error. */
    function Code(): (c: int)
      ensures Error(msg, c) == this
    {
      code
    }

    predicate IsConflict()
      ensures IsConflict() <==> Code() == Conflict
    {
      code == Conflict
    }

    predicate IsNotFound()
      ensures IsNotFound() <==> Code() == NotFound
      ensures IsNotFound() ==> !IsConflict()
    {
      code == NotFound
    }

    predicate IsUnhandled()
      ensures IsUnhandled() <==> Code() == Unhandled
      ensures IsUnhandled() ==> !IsConflict() && !IsNotFound()
    {
      code == Unhandled
    }
  }

  /** Builds an error that stores both arguments verbatim; any code is accepted. */
  function New(msg: string, code: int): (e: Error)
    ensures e.Code() == code && e.msg == msg
  {
    Error(msg, code)
  }

  /**
   * A value of Go's `error` interface: an `Error`, some other dynamic type
   * (identified by the name `%T` prints for it), or nil.
   */
  datatype AnyError = Classified(e: Error) | Other(typeName: string) | Nil

  /** What `%T` prints for the dynamic type of the value. */
  function TypeName(err: AnyError): string {
    match err
    case Classified(_) => "errobust.Error"
    case Other(t) => t
    case Nil => "<nil>"
  }

  const ConversionPrefix: string := "could not convert type "
  const ConversionSuffix: string := " to type Error"

  /** The message of the error `TryGetCode` returns when the conversion fails; it names the type of `err`. */
  function ConversionMessage(err: AnyError): (m: string)
    ensures |m| == |ConversionPrefix| + |TypeName(err)| + |ConversionSuffix|
    ensures m[..|ConversionPrefix|] == ConversionPrefix
    ensures m[|ConversionPrefix|..|m| - |ConversionSuffix|] == TypeName(err)
    ensures m[|m| - |ConversionSuffix|..] == ConversionSuffix
  {
    ConversionPrefix + TypeName(err) + ConversionSuffix
  }

  /**
   * The code of `err` and no error when `err` is an `Error`; otherwise code 0
   * and an `Unhandled` error that names the dynamic type of `err`.
   */
  function TryGetCode(err: AnyError): (r: (int, AnyError))
    ensures r.1 == Nil <==> err.Classified?
    ensures err.Classified? ==> r.0 == err.e.Code()
    ensures !err.Classified? ==> r.0 == 0 && IsUnhandled(r.1)
    ensures !err.Classified? ==> r.1.Classified? && r.1.e.msg == ConversionMessage(err)
  {
    match err
    case Classified(e) => (e.code, Nil)
    case _ => (0, Classified(Error(ConversionMessage(err), Unhandled)))
  }

  /** The code of `err` when it is an `Error`, and the sentinel -1 otherwise. */
  function GetCode(err: AnyError): (c: int)
    ensures err.Classified? ==> c == err.e.Code()
    ensures !err.Classified? ==> c == -1
  {
    var (code, e) := TryGetCode(err);
    if e != Nil then -1 else code
  }

  predicate IsConflict(err: AnyError)
    ensures IsConflict(err) <==> err.Classified? && err.e.Code() == Conflict
  {
    err.Classified? && err.e.IsConflict()
  }

  predicate IsNotFound(err: AnyError)
    ensures IsNotFound(err) <==> err.Classified? && err.e.Code() == NotFound
  {
    err.Classified? && err.e.IsNotFound()
  }

  predicate IsUnhandled(err: AnyError)
    ensures IsUnhandled(err) <==> err.Classified? && err.e.Code() == Unhandled
  {
    err.Classified? && err.e.IsUnhandled()
  }

  // ---------------------------------------------------------------------
  // Reading a rendering back
  // ---------------------------------------------------------------------

  /** The first index of `c` in `s`, or `|s|` when `c` does not occur. */
  function FirstIndex(s: string, c: char): (k: nat)
    ensures k <= |s|
    ensures k < |s| ==> s[k] == c
    ensures forall i :: 0 <= i < k ==> s[i] != c
  {
    if s == [] then 0
    else if s[0] == c then 0
    else 1 + FirstIndex(s[1..], c)
  }

  /**
   * Recovers the error whose `ErrorString()` is `s`: the prefix `error[`, a
   * decimal code up to the first `]`, the separator `]: `, then the message.
   */
  function ParseRendered(s: string): Option<Error> {
    var prefix := "error[";
    if |s| < |prefix| || s[..|prefix|] != prefix then None
    else
      var rest := s[|prefix|..];
      var k := FirstIndex(rest, ']');
      if |rest| < k + 3 || rest[k..k + 3] != "]: " then None
      else
        match Decimal.ParseInt(rest[..k])
        case None => None
        case Some(c) => Some(Error(rest[k + 3..], c))
  }

  // ---------------------------------------------------------------------
  // Properties
  // ---------------------------------------------------------------------

  /** `New(m, c).Error()` is `error[` + the decimal rendering of `c` + `]: ` + `m`. */
  lemma RenderingOfNew(msg: string, code: int)
    ensures New(msg, code).ErrorString() == "error[" + Decimal.IntToString(code) + "]: " + msg
  {
  }

  lemma {:induction false} FirstIndexOfSeparator(a: string, b: string, c: char)
    requires forall i :: 0 <= i < |a| ==> a[i] != c
    requires |b| > 0 && b[0] == c
    ensures FirstIndex(a + b, c) == |a|
    decreases |a|
  {
    if a != [] {
      assert (a + b)[1..] == a[1..] + b;
      FirstIndexOfSeparator(a[1..], b, c);
    }
  }

  /** The rendering loses nothing: code and message can be read back from it. */
  lemma ParseRenderedInverts(msg: string, code: int)
    ensures ParseRendered("error[" + Decimal.IntToString(code) + "]: " + msg) == Some(Error(msg, code))
  {
    var digits := Decimal.IntToString(code);
    var rest := digits + "]: " + msg;
    var s := "error[" + digits + "]: " + msg;
    assert s == "error[" + rest;
    assert s[6..] == rest;
    forall i | 0 <= i < |digits| ensures digits[i] != ']' {
      if digits[0] == '-' {
        assert i == 0 || digits[1..][i - 1] == digits[i];
      }
    }
    FirstIndexOfSeparator(digits, "]: " + msg, ']');
    assert rest[..|digits|] == digits;
    assert rest[|digits|..|digits| + 3] == "]: ";
    assert rest[|digits| + 3..] == msg;
    Decimal.IntToStringRoundTrip(code);
  }

  /** Two errors with the same rendering are the same error. */
  lemma RenderInjective(e1: Error, e2: Error)
    ensures e1.ErrorString() == e2.ErrorString() ==> e1 == e2
  {
  }

  /**
   * Each method predicate holds exactly when the code is its constant; at
   * most one holds, and a code outside {404, 409, 500} makes all three false.
   */
  lemma Classification(e: Error)
    ensures e.IsConflict() <==> e.Code() == 409
    ensures e.IsNotFound() <==> e.Code() == 404
    ensures e.IsUnhandled() <==> e.Code() == 500
    ensures !(e.IsConflict() && e.IsNotFound())
    ensures !(e.IsConflict() && e.IsUnhandled())
    ensures !(e.IsNotFound() && e.IsUnhandled())
    ensures e.Code() !in {404, 409, 500} ==> !e.IsConflict() && !e.IsNotFound() && !e.IsUnhandled()
  {
  }

  /** The free predicates are false for anything that is not an `Error`, and
      agree with the method of the same name on an `Error`. */
  lemma FreePredicates(err: AnyError)
    ensures !err.Classified? ==> !IsConflict(err) && !IsNotFound(err) && !IsUnhandled(err)
    ensures err.Classified? ==> IsConflict(err) == err.e.IsConflict()
    ensures err.Classified? ==> IsNotFound(err) == err.e.IsNotFound()
    ensures err.Classified? ==> IsUnhandled(err) == err.e.IsUnhandled()
  {
  }

  /** Each free predicate holds exactly when `GetCode` yields its constant. */
  lemma PredicatesAgreeWithGetCode(err: AnyError)
    ensures IsConflict(err) <==> GetCode(err) == Conflict
    ensures IsNotFound(err) <==> GetCode(err) == NotFound
    ensures IsUnhandled(err) <==> GetCode(err) == Unhandled
  {
  }

  /** The error `TryGetCode` returns on failure is itself classified: its code is `Unhandled`. */
  lemma ConversionFailureIsUnhandled(err: AnyError)
    requires !err.Classified?
    ensures GetCode(TryGetCode(err).1) == Unhandled
    ensures TryGetCode(TryGetCode(err).1) == (Unhandled, Nil)
  {
  }

  /** The failure message names the dynamic type: different type names give different errors. */
  lemma ConversionMessageNamesType(a: AnyError, b: AnyError)
    ensures ConversionMessage(a) == ConversionMessage(b) ==> TypeName(a) == TypeName(b)
  {
  }

  /**
   * The sentinel -1 is ambiguous: `GetCode` yields -1 for every value that is
   * not an `Error` and also for an `Error` whose code is -1.
   */
  lemma GetCodeSentinelAmbiguous(err: AnyError)
    ensures GetCode(err) == -1 <==> !err.Classified? || err.e.Code() == -1
    ensures GetCode(Classified(New("x", -1))) == GetCode(Nil) == -1
  {
  }
}
