# errobust in Dafny

A model of the Go package `errobust`. The package has one value type, `Error`, which holds a message and an integer status code. Three codes have names: `Conflict` (409), `NotFound` (404) and `Unhandled` (500). Helpers take any Go `error` and classify it by its code. Everything in the package is pure, so the model uses datatypes, functions and lemmas only.

- `wrappers.dfy`: module `Wrappers`, an `Option` datatype.
- `decimal.dfy`: module `Decimal`, which renders integers the way Go's `%d` does (`IntToString`). It also has a parser, `ParseInt`, with `ParseInt(IntToString(i)) == Some(i)` proved for every `i`. `ParseInt` also accepts non-canonical forms such as `007`, so it is only a left inverse.
- `errobust.dfy`: module `Errobust`, holding:
  - the constants;
  - the `Error` datatype with its methods `ErrorString` (Go's `Error()`), `Code`, `IsConflict`, `IsNotFound` and `IsUnhandled`;
  - `New`;
  - the input type `AnyError`;
  - the free functions `TryGetCode`, `GetCode`, `IsConflict`, `IsNotFound` and `IsUnhandled`;
  - `ParseRendered`, which reads a rendered error back;
  - the lemmas.
- `handler.dfy`: module `ErrobustHandler`, the `Handler` facade. It has no fields, and each of its methods forwards to the free function of the same name.

A Go `error` is modelled as `AnyError = Classified(e: Error) | Other(typeName: string) | Nil`. The type assertion `err.(Error)` becomes a test of `Classified?`. `TypeName` stands for `%T`: an `Other` value carries the name of its dynamic type, and `Nil` prints as `<nil>`. Go's `Error()` method is called `ErrorString` here, because inside the datatype a member named `Error` would hide the constructor `Error`, which the contracts use. `TryGetCode` returns a pair. On failure, the second component is `Classified(...)`: the Go code returns an `Error` value boxed in the `error` interface, and that boxed value is never nil.

## Model

| member | source | states |
|---|---|---|
| `Errobust.New` | errobust.go:45-48 | The constructed error stores both arguments unchanged: `Code()` returns the code passed in and the message is the one passed in. Any code is accepted. |
| `Errobust.RenderingOfNew` | errobust.go:21-23 | `New(m, c).Error()` is `"error["`, then the decimal form of `c`, then `"]: "`, then `m`. |
| `Errobust.Error.ErrorString` | errobust.go:21-23 | The code and the message can both be read back from `Error()`'s output: parsing the rendering gives the original error. This holds even when the message contains `]`. |
| `Errobust.ParseRenderedInverts` | errobust.go:22 | Parsing `"error["` + decimal(code) + `"]: "` + message gives back exactly that code and that message. This is the proof behind `ErrorString`'s contract. |
| `Errobust.Error.Code` | errobust.go:25-28 | `Code()` returns the code the error was built with: the message together with that code rebuilds the same error. |
| `Errobust.Error.IsConflict` | errobust.go:30-33 | True exactly when the code is `Conflict` (409). |
| `Errobust.Error.IsNotFound` | errobust.go:35-38 | True exactly when the code is `NotFound` (404). It excludes `IsConflict`. |
| `Errobust.Error.IsUnhandled` | errobust.go:40-43 | True exactly when the code is `Unhandled` (500). It excludes `IsConflict` and `IsNotFound`. |
| `Errobust.RenderInjective` | errobust.go:21-23 | Two errors that render to the same string have the same code and the same message. |
| `Errobust.Classification` | errobust.go:30-43 | Each method predicate holds exactly when the code equals its constant (409, 404, 500). No two of them hold together. A code outside {404, 409, 500} makes all three false. |
| `Errobust.TryGetCode` | errobust.go:50-60 | The returned error is nil exactly when the input is an `Error`. In that case the returned code is the stored code. Otherwise the code is 0, and the returned error satisfies `IsUnhandled` and has the message "could not convert type <type> to type Error". |
| `Errobust.ConversionFailureIsUnhandled` | errobust.go:56-59 | For a non-`Error` input, the error `TryGetCode` returns is itself an `Error` with code `Unhandled`. `GetCode` gives 500 for it, and `TryGetCode` gives `(500, nil)`. |
| `Errobust.ConversionMessage` | errobust.go:57 | The failure message is `"could not convert type "`, then the `%T` name of the input, then `" to type Error"`. The type name can be cut back out of the message. |
| `Errobust.ConversionMessageNamesType` | errobust.go:57 | The failure message determines the dynamic type name it mentions. |
| `Errobust.GetCode` | errobust.go:62-70 | The result is the stored code when the input is an `Error`, and -1 otherwise. No error is returned. |
| `Errobust.GetCodeSentinelAmbiguous` | errobust.go:64-70 | For every input, `GetCode` is -1 exactly when the input is not an `Error` or is an `Error` whose code is -1. So an `Error` with code -1 cannot be told apart from nil. |
| `Errobust.IsConflict` | errobust.go:72-76 | True exactly when the input is an `Error` with code 409. |
| `Errobust.IsNotFound` | errobust.go:78-82 | True exactly when the input is an `Error` with code 404. |
| `Errobust.IsUnhandled` | errobust.go:84-88 | True exactly when the input is an `Error` with code 500. |
| `Errobust.FreePredicates` | errobust.go:72-88 | For anything that is not an `Error`, including nil, the three free predicates are false. For an `Error`, each equals the method of the same name. |
| `Errobust.PredicatesAgreeWithGetCode` | errobust.go:62-88 | Each free predicate holds exactly when `GetCode` returns its constant. |
| `ErrobustHandler.Handler.TryGetCode` | errobust.go:93-97 | Returns exactly what the free `TryGetCode` returns, for every input. |
| `ErrobustHandler.Handler.GetCode` | errobust.go:99-103 | Returns exactly what the free `GetCode` returns, for every input. |
| `ErrobustHandler.Handler.IsConflict` | errobust.go:105-108 | Returns exactly what the free `IsConflict` returns, for every input. |
| `ErrobustHandler.Handler.IsNotFound` | errobust.go:110-113 | Returns exactly what the free `IsNotFound` returns, for every input. |
| `ErrobustHandler.Handler.IsUnhandled` | errobust.go:115-118 | Returns exactly what the free `IsUnhandled` returns, for every input. |
| `Decimal.NatToString` | errobust.go:22 | `%d` of a non-negative code is a non-empty string of digits with no leading zero; zero renders as exactly `0`. |
| `Decimal.IntToString` | errobust.go:22 | `%d` of a code is well-formed decimal syntax. It starts with a minus sign exactly when the code is negative. It is canonical: zero renders as exactly `0`, no other number starts with `0`, and no `0` follows the sign. |
| `Decimal.IntToStringRoundTrip` | errobust.go:22 | Parsing the decimal rendering of a code gives the code back. |
| `Decimal.IntToStringInjective` | errobust.go:22 | Distinct codes render to distinct strings. |

## Left out

- `%T` reflection: the runtime type name of a non-`Error` value is carried as an opaque string by `AnyError.Other`. `Nil` prints as `<nil>`.
- `fmt.Sprintf` in general: only `%d` on an `int` (as `Decimal.IntToString`) and `%s` on a string (concatenation) are modelled.
- `net/http`: it only supplies the values 409, 404 and 500, which are written as literals.
- Go strings are byte sequences; messages and type names here are `seq<char>`. The package only concatenates them, and the `]` the parse relies on never occurs inside a UTF-8 multibyte character, so nothing depends on the difference.
- Go's fixed-width `int`: codes are unbounded integers. The package does no arithmetic on codes, so no wrap-around can occur.
- Pointer receivers and `*Error` values: the package only type-asserts to the value type `Error`. A `*Error` would fall into the `Other` case.
- Embedding `Handler` in other structs: Go's embedding mechanism is not modelled. Only the forwarding behaviour of its methods is.
- TypeName: has no contract of its own. It stands for `%T`, whose output is Go runtime behaviour. Its use is stated by `ConversionMessage` and `ConversionMessageNamesType`.
