/**
 * The error utilities: `AggregateError` and the rendering of its inner errors
 * (src/shared/errors/aggregateError.ts), `InvalidExceptionError`
 * (src/shared/errors/invalidExceptionError.ts), `ensureError`
 * (src/shared/errors/ensureError.ts), `catchSync` (src/shared/errors/catchSync.ts)
 * and `rethrowSync` (src/shared/errors/rethrowSync.ts).
 *
 * A function that may throw is given by its completion; object identity is value equality.
 */
module Errors {
  import opened JsValues

  // ---------------------------------------------------------------------------
  // AggregateError
  // ---------------------------------------------------------------------------

  /** The indent an `AggregateError` puts before each inner error. */
  const Pad: string := "    "

  /** The text an inner error is rendered from: the trimmed description of an aggregate, else the trimmed `String(e)`. */
  function InnerText(e: ErrorObj): string {
    if e.kind.Aggregate? then Trim(e.kind.description) else Trim(ErrorToString(e))
  }

  /** One step of the `reduce` in `innerErrorsToMessage`: the padded text, its first line break re-indented, and a line break. */
  function InnerErrorLine(pad: string, e: ErrorObj): string {
    ReplaceFirstNewline(pad + InnerText(e), "\n" + pad) + "\n"
  }

  /** `innerErrorsToMessage(pad, ...errors)`: the left-to-right `reduce` starting from `''`. */
  function InnerErrorsToMessage(pad: string, errors: seq<ErrorObj>): (r: string)
    ensures r == "" <==> errors == []
    ensures errors != [] ==> r[|r| - 1] == '\n' && IsPrefix(InnerErrorsToMessage(pad, errors[..|errors| - 1]), r)
  {
    ConcatMap((e: ErrorObj) => InnerErrorLine(pad, e), errors)
  }

  /** The rendering is per error, in argument order: the lists of two calls concatenated render as the two renderings. */
  lemma InnerErrorsInOrder(pad: string, a: seq<ErrorObj>, b: seq<ErrorObj>)
    ensures InnerErrorsToMessage(pad, a + b) == InnerErrorsToMessage(pad, a) + InnerErrorsToMessage(pad, b)
    ensures a != [] ==> InnerErrorsToMessage(pad, a) == InnerErrorLine(pad, a[0]) + InnerErrorsToMessage(pad, a[1..])
  {
    ConcatMapAppend((e: ErrorObj) => InnerErrorLine(pad, e), a, b);
    if a != [] {
      assert a == [a[0]] + a[1..];
      ConcatMapCons((e: ErrorObj) => InnerErrorLine(pad, e), a[0], a[1..]);
    }
  }

  /** A one-line inner error contributes exactly the pad, its trimmed text and a line break. */
  lemma OneLineInnerError(pad: string, e: ErrorObj)
    requires '\n' !in pad && '\n' !in InnerText(e)
    ensures InnerErrorLine(pad, e) == pad + InnerText(e) + "\n"
  {
    assert '\n' !in pad + InnerText(e);
    ReplaceWithoutNewline(pad + InnerText(e), "\n" + pad);
  }

  /**
   * A multi-line inner error gets the pad before its first line and before its second line
   * only: the line breaks after the first one are kept as they are.
   */
  lemma MultiLineInnerError(pad: string, e: ErrorObj, first: string, rest: string)
    requires '\n' !in pad && '\n' !in first && InnerText(e) == first + "\n" + rest
    ensures InnerErrorLine(pad, e) == pad + first + "\n" + pad + rest + "\n"
  {
    assert '\n' !in pad + first;
    assert pad + InnerText(e) == (pad + first) + "\n" + rest;
    ReplaceFirstNewlineSplit(pad + first, rest, "\n" + pad);
  }

  /**
   * The description of an aggregate: `'AggregateError'` and `[message, lines].filter(Boolean).join('')`,
   * kept by `filter(Boolean)` and joined with `': '`. The inner lines always start with a line break.
   */
  function Description(message: string, lines: string): (d: string)
    requires lines != ""
    ensures d == "AggregateError: " + message + lines
  {
    JoinNonEmptyPair(message, lines, "");
    var tail := Join(NonEmpty([message, lines]), "");
    assert tail == message + lines;
    JoinNonEmptyPair("AggregateError", tail, ": ");
    Join(NonEmpty(["AggregateError", tail]), ": ")
  }

  /**
   * `new AggregateError(message, ...innerErrors)`: the name, the message (`''` when absent),
   * the inner errors in argument order, and the description.
   */
  function NewAggregateError(message: Option<string>, innerErrors: seq<ErrorObj>): (e: ErrorObj)
    ensures e.name == "AggregateError" && e.message == message.GetOr("")
    ensures e.kind.Aggregate? && e.kind.innerErrors == innerErrors
    ensures e.kind.description == "AggregateError: " + message.GetOr("") + "\n" + InnerErrorsToMessage(Pad, innerErrors)
  {
    var msg := message.GetOr("");
    ErrorObj("AggregateError", msg, Aggregate(Description(msg, "\n" + InnerErrorsToMessage(Pad, innerErrors)), innerErrors))
  }

  /** `String(aggregate)` shows only the top-level message, like any error. */
  lemma AggregateToString(message: string, innerErrors: seq<ErrorObj>)
    requires message != ""
    ensures ErrorToString(NewAggregateError(Some(message), innerErrors)) == "AggregateError: " + message
  {
    assert "AggregateError" + ": " == "AggregateError: ";
  }

  /** An aggregate of one error renders it on one padded line. */
  lemma {:induction false} OneInnerError(message: string, inner: ErrorObj)
    requires '\n' !in InnerText(inner)
    ensures NewAggregateError(Some(message), [inner]).kind.description
            == "AggregateError: " + message + "\n" + Pad + InnerText(inner) + "\n"
  {
    OneLineInnerError(Pad, inner);
    InnerErrorsInOrder(Pad, [inner], []);
    assert [inner][1..] == [];
  }

  /** A plain error with a one-line message not ending in whitespace is rendered from `Error: <message>`. */
  lemma PlainInnerText(m: string)
    requires '\n' !in m && m != "" && !IsWhitespace(m[|m| - 1])
    ensures InnerText(ErrorOf("Error", m)) == "Error: " + m
    ensures '\n' !in InnerText(ErrorOf("Error", m))
  {
    var t := "Error: " + m;
    assert ErrorToString(ErrorOf("Error", m)) == t;
    assert t[0] == 'E' && t[|t| - 1] == m[|m| - 1];
    TrimOfTrimmed(t);
  }

  /**
   * The description of an aggregate of one plain error, as the test's snapshot shows it:
   * `AggregateError: Top level message`, then the padded `Error: Ooooh, something went wrong`,
   * each followed by a line break.
   */
  lemma SingleInnerDescription(message: string, innerMessage: string)
    requires '\n' !in innerMessage && innerMessage != "" && !IsWhitespace(innerMessage[|innerMessage| - 1])
    ensures NewAggregateError(Some(message), [ErrorOf("Error", innerMessage)]).kind.description
            == "AggregateError: " + message + "\n" + Pad + ("Error: " + innerMessage) + "\n"
  {
    PlainInnerText(innerMessage);
    OneInnerError(message, ErrorOf("Error", innerMessage));
  }

  /** An aggregate of two errors renders their lines one after the other. */
  lemma {:induction false} TwoInnerErrors(message: string, a: ErrorObj, b: ErrorObj)
    ensures NewAggregateError(Some(message), [a, b]).kind.description
            == "AggregateError: " + message + "\n" + (InnerErrorLine(Pad, a) + InnerErrorLine(Pad, b))
  {
    InnerErrorsInOrder(Pad, [a, b], []);
    InnerErrorsInOrder(Pad, [b], []);
    assert [a, b][1..] == [b];
    assert [b][1..] == [];
  }

  /** The text an aggregate of one one-line error is rendered from when nested: its own line, then the padded inner text. */
  lemma AggregateInnerText(message: string, inner: ErrorObj)
    requires '\n' !in InnerText(inner) && InnerText(inner) != "" && !IsWhitespace(InnerText(inner)[|InnerText(inner)| - 1])
    ensures InnerText(NewAggregateError(Some(message), [inner]))
            == ("AggregateError: " + message) + "\n" + (Pad + InnerText(inner))
  {
    var it := InnerText(inner);
    OneInnerError(message, inner);
    var t := ("AggregateError: " + message) + "\n" + (Pad + it);
    assert "AggregateError: " + message + "\n" + Pad + it + "\n" == t + "\n";
    assert t[0] == 'A' && t[|t| - 1] == it[|it| - 1];
    TrimDropsFinalNewline(t);
  }

  /** The text a nested aggregate of one plain error is rendered from: its own line, then its padded inner error. */
  lemma NestedAggregateText(m2: string, m3: string)
    requires '\n' !in m2 && '\n' !in m3 && m3 != "" && !IsWhitespace(m3[|m3| - 1])
    ensures InnerText(NewAggregateError(Some(m2), [ErrorOf("Error", m3)]))
            == ("AggregateError: " + m2) + "\n" + (Pad + ("Error: " + m3))
  {
    PlainInnerText(m3);
    AggregateInnerText(m2, ErrorOf("Error", m3));
  }

  /**
   * The description of an aggregate nesting another aggregate, as the test's snapshot shows it:
   * the nested aggregate's own line is indented once and its inner error twice.
   */
  lemma NestedInnerDescription(message: string, m1: string, m2: string, m3: string)
    requires '\n' !in m1 && m1 != "" && !IsWhitespace(m1[|m1| - 1])
    requires '\n' !in m2 && '\n' !in m3 && m3 != "" && !IsWhitespace(m3[|m3| - 1])
    ensures var nested := NewAggregateError(Some(m2), [ErrorOf("Error", m3)]);
            NewAggregateError(Some(message), [ErrorOf("Error", m1), nested]).kind.description
            == "AggregateError: " + message + "\n"
               + ((Pad + ("Error: " + m1) + "\n")
                  + (Pad + ("AggregateError: " + m2) + "\n" + Pad + (Pad + ("Error: " + m3)) + "\n"))
  {
    PlainInnerText(m1);
    OneLineInnerError(Pad, ErrorOf("Error", m1));
    NestedAggregateText(m2, m3);
    AggregateHeadLine(m2);
    MultiLineInnerError(Pad, NewAggregateError(Some(m2), [ErrorOf("Error", m3)]), "AggregateError: " + m2, Pad + ("Error: " + m3));
    TwoInnerErrors(message, ErrorOf("Error", m1), NewAggregateError(Some(m2), [ErrorOf("Error", m3)]));
  }

  /** The head line of an aggregate is one line when its message is. */
  lemma AggregateHeadLine(message: string)
    requires '\n' !in message
    ensures '\n' !in "AggregateError: " + message
  {
  }

  /** Trimming a string that ends in one line break, and otherwise has no whitespace at its ends, drops that line break. */
  lemma TrimDropsFinalNewline(t: string)
    requires t != [] && !IsWhitespace(t[0]) && !IsWhitespace(t[|t| - 1])
    ensures Trim(t + "\n") == t
  {
    var s := t + "\n";
    TrimStartOfTrimmed(s);
    assert s[..|s| - 1] == t;
    assert TrimEnd(t) == t;
  }

  // ---------------------------------------------------------------------------
  // InvalidExceptionError and ensureError
  // ---------------------------------------------------------------------------

  /** The text an `InvalidExceptionError` message opens with, before the stringified value. */
  const NonErrorThrown := "A non-Error was thrown ("

  /** `new InvalidExceptionError(original)`. */
  function NewInvalidExceptionError(original: Value): (e: ErrorObj)
    ensures e.name == "InvalidExceptionError" && e.kind == InvalidException(original)
    ensures e.message == NonErrorThrown + ToStr(original) + ")"
  {
    ErrorObj("InvalidExceptionError", NonErrorThrown + ToStr(original) + ")", InvalidException(original))
  }

  /**
   * The message names what was thrown: the stringified value can be read back from between
   * the opening text and the closing parenthesis.
   */
  lemma InvalidExceptionMessageReadsBack(original: Value)
    ensures var m := NewInvalidExceptionError(original).message;
            |m| == |NonErrorThrown| + |ToStr(original)| + 1
            && m[..|NonErrorThrown|] == NonErrorThrown
            && m[|NonErrorThrown|..|m| - 1] == ToStr(original)
            && m[|m| - 1] == ')'
  {
    var m := NewInvalidExceptionError(original).message;
    assert m == (NonErrorThrown + ToStr(original)) + ")";
    assert m[..|NonErrorThrown|] == NonErrorThrown;
    assert m[|NonErrorThrown|..|m| - 1] == ToStr(original);
  }

  /** The messages of the constructions the tests make: `undefined`, a string and an object. */
  lemma InvalidExceptionMessages()
    ensures NewInvalidExceptionError(Undefined).message == NonErrorThrown + "undefined" + ")"
    ensures NewInvalidExceptionError(Str("Some value")).message == NonErrorThrown + "Some value" + ")"
    ensures NewInvalidExceptionError(Obj(map[])).message == NonErrorThrown + "[object Object]" + ")"
  {
  }

  /** `ensureError(err)`: an error is returned as it is, and anything else, falsy or not, is wrapped. */
  function EnsureError(v: Value): (e: ErrorObj)
    ensures v.Err? ==> e == v.err
    ensures !v.Err? ==> e == NewInvalidExceptionError(v)
  {
    if !Truthy(v) then NewInvalidExceptionError(v)
    else if IsObjectType(v) && v.Err? then v.err
    else NewInvalidExceptionError(v)
  }

  /** Ensuring twice is ensuring once. */
  lemma EnsureErrorIdempotent(v: Value)
    ensures EnsureError(Err(EnsureError(v))) == EnsureError(v)
  {
  }

  /** The values the tests pass: falsy ones and a plain object are wrapped, errors (including aggregates) kept. */
  lemma EnsureErrorCases(e: ErrorObj)
    ensures EnsureError(Undefined).kind == InvalidException(Undefined)
    ensures EnsureError(Null).kind == InvalidException(Null)
    ensures EnsureError(Num(0)).kind == InvalidException(Num(0))
    ensures EnsureError(Obj(map[])).kind == InvalidException(Obj(map[]))
    ensures EnsureError(Str("Error")).kind == InvalidException(Str("Error"))
    ensures EnsureError(Err(e)) == e
    ensures EnsureError(Err(NewAggregateError(None, []))) == NewAggregateError(None, [])
  {
  }

  // ---------------------------------------------------------------------------
  // catchSync and rethrowSync
  // ---------------------------------------------------------------------------

  /** The record `catchSync` returns: `error` is `null` or an error, `result` the value or `null`. */
  datatype Optional = Optional(error: Value, result: Value)

  /**
   * `catchSync(fn, { errorMessage })`: the result when `fn` returns; otherwise the ensured
   * error, wrapped in an aggregate with `errorMessage` when that is a non-empty string.
   */
  function CatchSync(fn: Completion<Value>, errorMessage: Option<string>): (r: Optional)
    ensures r.error == Null <==> fn.Returned?
    ensures fn.Returned? ==> r.result == fn.value
    ensures fn.Threw? ==> r.result == Null
    ensures fn.Threw? && (errorMessage.None? || errorMessage.value == "") ==> r.error == Err(EnsureError(fn.thrown))
    ensures fn.Threw? && errorMessage.Some? && errorMessage.value != ""
            ==> r.error == Err(NewAggregateError(errorMessage, [EnsureError(fn.thrown)]))
  {
    match fn
    case Returned(result) => Optional(Null, result)
    case Threw(err) =>
      var message := errorMessage.GetOr("");
      Optional(if message != "" then Err(NewAggregateError(Some(message), [EnsureError(err)]))
               else Err(EnsureError(err)),
               Null)
  }

  /** An override message aggregates the thrown error under it. */
  lemma CatchSyncOverride()
    ensures CatchSync(Threw(Err(ErrorOf("Error", "Oh, something went wrong"))), Some("Top level override"))
            == Optional(Err(NewAggregateError(Some("Top level override"), [ErrorOf("Error", "Oh, something went wrong")])), Null)
  {
  }

  /** The object `rethrowSync` hands to `throwError`, with its helper functions. */
  datatype RethrowInfo = RethrowInfo(thrown: ErrorObj) {
    /** `rethrow()`: the thrown error aggregated under its own message. */
    function Rethrow(): (e: ErrorObj)
      ensures e.message == thrown.message && e.kind.Aggregate? && e.kind.innerErrors == [thrown]
    {
      NewAggregateError(Some(thrown.message), [thrown])
    }

    /** `withMessage(msg)`: the thrown error aggregated under `msg`. */
    function WithMessage(msg: string): (e: ErrorObj)
      ensures e.message == msg && e.kind.Aggregate? && e.kind.innerErrors == [thrown]
    {
      NewAggregateError(Some(msg), [thrown])
    }

    /** `toString()`: `String(thrown)`. */
    function ToString(): string {
      ErrorToString(thrown)
    }
  }

  /**
   * `rethrowSync(fn, throwError)`: `fn`'s value when it returns; otherwise `throwError` is called
   * with the ensured error, and what it returns is thrown when truthy, else the ensured error is.
   */
  function RethrowSync(fn: Completion<Value>, throwError: RethrowInfo -> Completion<Value>): (r: Completion<Value>)
    ensures fn.Returned? ==> r == fn
    ensures fn.Threw? ==> r.Threw?
    ensures fn.Threw? ==> var out := throwError(RethrowInfo(EnsureError(fn.thrown)));
                          (out.Threw? ==> r == out)
                          && (out.Returned? && Truthy(out.value) ==> r == Threw(out.value))
                          && (out.Returned? && !Truthy(out.value) ==> r == Threw(Err(EnsureError(fn.thrown))))
  {
    match fn
    case Returned(_) => fn
    case Threw(err) =>
      var error := EnsureError(err);
      match throwError(RethrowInfo(error))
      case Threw(t) => Threw(t)
      case Returned(newError) => if Truthy(newError) then Threw(newError) else Threw(Err(error))
  }

  /** `withMessage` throws an aggregate of the original error under the new message. */
  lemma RethrowWithMessage()
    ensures var r := RethrowSync(Threw(Err(ErrorOf("Error", "Synchronous error"))),
                                 (info: RethrowInfo) => Returned(Err(info.WithMessage("Something went wrong"))));
            r == Threw(Err(NewAggregateError(Some("Something went wrong"), [ErrorOf("Error", "Synchronous error")])))
            && r.thrown.err.message == "Something went wrong"
  {
  }

  /** A non-throwing function's value passes through whatever `throwError` would do. */
  lemma RethrowPassesValues(v: Value, throwError: RethrowInfo -> Completion<Value>)
    ensures RethrowSync(Returned(v), throwError) == Returned(v)
  {
  }
}
