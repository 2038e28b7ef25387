/**
 * The JavaScript values the service passes around: thrown values, parsed JSON,
 * logging arguments and option objects. Numbers are modelled as integers only.
 * The module also holds the string primitives the source relies on
 * (`String(x)`, `trim()`, `includes`, `replace` with a string pattern).
 */
module JsValues {

  datatype Option<+T> = None | Some(value: T) {
    function GetOr(default: T): T {
      match this
      case Some(v) => v
      case None => default
    }
  }

  /** A JavaScript value. `Func` carries the function's source text, which is what `String(fn)` yields. */
  datatype Value =
    | Undefined
    | Null
    | Bool(b: bool)
    | Num(n: int)
    | Str(s: string)
    | Arr(elems: seq<Value>)
    | Obj(props: map<string, Value>)
    | Func(source: string)
    | Err(err: ErrorObj)

  /** An instance of `Error` or of one of its subclasses. */
  datatype ErrorObj = ErrorObj(name: string, message: string, kind: ErrorKind)

  datatype ErrorKind =
    | PlainError
    | InvalidException(original: Value)
    | Aggregate(description: string, innerErrors: seq<ErrorObj>)

  /** The outcome of calling a function that may throw. */
  datatype Completion<+T> = Returned(value: T) | Threw(thrown: Value)

  /** JavaScript truthiness (`!!v`). */
  predicate Truthy(v: Value) {
    match v
    case Undefined => false
    case Null => false
    case Bool(b) => b
    case Num(n) => n != 0
    case Str(s) => s != ""
    case _ => true
  }

  /** `typeof v === 'object'` (arrays, plain objects, errors and null). */
  predicate IsObjectType(v: Value) {
    v.Null? || v.Arr? || v.Obj? || v.Err?
  }

  /**
   * `new Error(message)` (`name` "Error") or one of its built-in subclasses such as
   * `new TypeError(message)` (`name` "TypeError"): a plain error with no further fields.
   */
  function ErrorOf(name: string, message: string): (e: ErrorObj)
    ensures e.name == name && e.message == message && e.kind == PlainError
  {
    ErrorObj(name, message, PlainError)
  }

  /** The `message` property of `v` (`undefined` when absent); every `Error` has one, inherited if not its own. */
  function MessageProp(v: Value): Value {
    match v
    case Err(e) => Str(e.message)
    case Obj(props) => if "message" in props then props["message"] else Undefined
    case _ => Undefined
  }

  // ---------------------------------------------------------------------------
  // Whitespace and trimming
  // ---------------------------------------------------------------------------

  /**
   * The characters JavaScript's `trim()` removes and the regular-expression class
   * `\s` matches: WhiteSpace (tab, vertical tab, form feed, space, no-break space,
   * the byte order mark and the space separators) and LineTerminator.
   */
  predicate IsWhitespace(c: char) {
    c == '\t' || c == '\n' || c == '\U{000B}' || c == '\U{000C}' || c == '\r' || c == ' '
    || c == '\U{00A0}' || c == '\U{1680}' || ('\U{2000}' <= c <= '\U{200A}')
    || c == '\U{2028}' || c == '\U{2029}' || c == '\U{202F}' || c == '\U{205F}'
    || c == '\U{3000}' || c == '\U{FEFF}'
  }

  predicate AllWhitespace(s: string) {
    forall i :: 0 <= i < |s| ==> IsWhitespace(s[i])
  }

  /** The string with its leading whitespace removed. */
  function TrimStart(s: string): string {
    if s != [] && IsWhitespace(s[0]) then TrimStart(s[1..]) else s
  }

  /** The string with its trailing whitespace removed. */
  function TrimEnd(s: string): string {
    if s != [] && IsWhitespace(s[|s| - 1]) then TrimEnd(s[..|s| - 1]) else s
  }

  /** `s.trim()`. */
  function Trim(s: string): string {
    TrimEnd(TrimStart(s))
  }

  /** `TrimStart` cuts a whitespace prefix and nothing else, and leaves no leading whitespace. */
  lemma {:induction false} TrimStartSpec(s: string)
    ensures |TrimStart(s)| <= |s| && TrimStart(s) == s[|s| - |TrimStart(s)|..]
    ensures AllWhitespace(s[..|s| - |TrimStart(s)|])
    ensures TrimStart(s) == [] || !IsWhitespace(TrimStart(s)[0])
  {
    if s != [] && IsWhitespace(s[0]) {
      TrimStartSpec(s[1..]);
      var r := TrimStart(s[1..]);
      assert s[1..][..|s| - 1 - |r|] == s[1..|s| - |r|];
      assert forall i :: 1 <= i < |s| - |r| ==> s[i] == s[1..][..|s| - 1 - |r|][i - 1];
    }
  }

  /** `TrimEnd` cuts a whitespace suffix and nothing else, and leaves no trailing whitespace. */
  lemma {:induction false} TrimEndSpec(s: string)
    ensures |TrimEnd(s)| <= |s| && TrimEnd(s) == s[..|TrimEnd(s)|]
    ensures AllWhitespace(s[|TrimEnd(s)|..])
    ensures TrimEnd(s) == [] || !IsWhitespace(TrimEnd(s)[|TrimEnd(s)| - 1])
  {
    if s != [] && IsWhitespace(s[|s| - 1]) {
      var p := s[..|s| - 1];
      TrimEndSpec(p);
      var r := TrimEnd(p);
      assert p[..|r|] == s[..|r|];
      assert forall i :: |r| <= i < |s| - 1 ==> s[i] == p[|r|..][i - |r|];
    }
  }

  /** The trimmed string is a contiguous piece of the input with only whitespace cut at either end. */
  lemma TrimIsInnerSlice(s: string)
    ensures exists i, j :: 0 <= i <= j <= |s| && Trim(s) == s[i..j]
                           && AllWhitespace(s[..i]) && AllWhitespace(s[j..])
    ensures Trim(s) == [] || (!IsWhitespace(Trim(s)[0]) && !IsWhitespace(Trim(s)[|Trim(s)| - 1]))
  {
    var t := TrimStart(s);
    TrimStartSpec(s);
    var i := |s| - |t|;
    var r := TrimEnd(t);
    TrimEndSpec(t);
    var j := i + |r|;
    assert r == s[i..j];
    assert s[j..] == t[|r|..];
    if r != [] {
      assert r[0] == t[0];
    }
  }

  lemma TrimStartOfTrimmed(s: string)
    requires s == [] || !IsWhitespace(s[0])
    ensures TrimStart(s) == s
  {
  }

  lemma TrimEndKeepsFirst(s: string)
    requires s == [] || !IsWhitespace(s[0])
    ensures TrimEnd(s) == [] || !IsWhitespace(TrimEnd(s)[0])
  {
    TrimEndSpec(s);
    var r := TrimEnd(s);
    if r != [] {
      assert r[0] == s[0];
    }
  }

  /** Trimming twice is trimming once. */
  lemma TrimIdempotent(s: string)
    ensures Trim(Trim(s)) == Trim(s)
  {
    var r := Trim(s);
    TrimStartSpec(s);
    TrimEndSpec(TrimStart(s));
    TrimEndKeepsFirst(TrimStart(s));
    TrimStartOfTrimmed(r);
  }

  /** A string without whitespace at either end is its own trim. */
  lemma TrimOfTrimmed(s: string)
    requires s != [] && !IsWhitespace(s[0]) && !IsWhitespace(s[|s| - 1])
    ensures Trim(s) == s
  {
    TrimStartOfTrimmed(s);
  }

  /** A string trims to nothing exactly when it is all whitespace. */
  lemma {:induction false} TrimEmptyIffBlank(s: string)
    ensures Trim(s) == "" <==> AllWhitespace(s)
  {
    TrimIsInnerSlice(s);
    if AllWhitespace(s) {
      BlankTrimStart(s);
    } else {
      var k :| 0 <= k < |s| && !IsWhitespace(s[k]);
      var i, j :| 0 <= i <= j <= |s| && Trim(s) == s[i..j] && AllWhitespace(s[..i]) && AllWhitespace(s[j..]);
    }
  }

  lemma {:induction false} BlankTrimStart(s: string)
    requires AllWhitespace(s)
    ensures TrimStart(s) == ""
  {
    if s != [] {
      assert AllWhitespace(s[1..]) by {
        forall i | 0 <= i < |s[1..]| ensures IsWhitespace(s[1..][i]) {
          assert s[1..][i] == s[i + 1];
        }
      }
      BlankTrimStart(s[1..]);
    }
  }

  /** Whitespace in front of a string that starts with a non-whitespace character is trimmed away. */
  lemma {:induction false} TrimStartBlankPrefix(w: string, t: string)
    requires AllWhitespace(w) && (t == [] || !IsWhitespace(t[0]))
    ensures TrimStart(w + t) == t
    decreases |w|
  {
    if w == [] {
      assert w + t == t;
    } else {
      assert (w + t)[1..] == w[1..] + t;
      assert AllWhitespace(w[1..]) by {
        forall i | 0 <= i < |w[1..]| ensures IsWhitespace(w[1..][i]) {
          assert w[1..][i] == w[i + 1];
        }
      }
      TrimStartBlankPrefix(w[1..], t);
    }
  }

  /** Whitespace after a string that ends with a non-whitespace character is trimmed away. */
  lemma {:induction false} TrimEndBlankSuffix(t: string, w: string)
    requires AllWhitespace(w) && (t == [] || !IsWhitespace(t[|t| - 1]))
    ensures TrimEnd(t + w) == t
    decreases |w|
  {
    if w == [] {
      assert t + w == t;
    } else {
      var u := t + w;
      assert u[..|u| - 1] == t + w[..|w| - 1];
      var front := w[..|w| - 1];
      assert AllWhitespace(front) by {
        forall i | 0 <= i < |front| ensures IsWhitespace(front[i]) {
          assert front[i] == w[i];
        }
      }
      assert u[|u| - 1] == w[|w| - 1];
      TrimEndBlankSuffix(t, w[..|w| - 1]);
    }
  }

  /** A string with no whitespace at its ends, padded with whitespace on both sides, trims back to itself. */
  lemma TrimPadded(w1: string, s: string, w2: string)
    requires AllWhitespace(w1) && AllWhitespace(w2)
    requires s != [] && !IsWhitespace(s[0]) && !IsWhitespace(s[|s| - 1])
    ensures Trim(w1 + s + w2) == s
  {
    assert w1 + s + w2 == w1 + (s + w2);
    TrimStartBlankPrefix(w1, s + w2);
    TrimEndBlankSuffix(s, w2);
  }

  // ---------------------------------------------------------------------------
  // Numbers to strings
  // ---------------------------------------------------------------------------

  function DigitChar(d: nat): (c: char)
    requires d < 10
    ensures '0' <= c <= '9'
  {
    "0123456789"[d]
  }

  /** The decimal digits of `n`, without leading zeros. */
  function NatToString(n: nat): (r: string)
    ensures |r| >= 1
    ensures forall i :: 0 <= i < |r| ==> '0' <= r[i] <= '9'
    ensures n >= 10 ==> r[0] != '0'
    decreases n
  {
    if n < 10 then [DigitChar(n)] else NatToString(n / 10) + [DigitChar(n % 10)]
  }

  /** `String(n)` for an integral number. */
  function IntToString(n: int): string {
    if n < 0 then "-" + NatToString(-n) else NatToString(n)
  }

  // ---------------------------------------------------------------------------
  // String(x)
  // ---------------------------------------------------------------------------

  /** `Error.prototype.toString`: the name, then ": " and the message when both are non-empty. */
  function ErrorToString(e: ErrorObj): (r: string)
    ensures e.message == "" ==> r == e.name
    ensures e.name == "" ==> r == e.message
    ensures e.name != "" && e.message != "" ==> r == e.name + ": " + e.message
  {
    if e.name == "" then e.message
    else if e.message == "" then e.name
    else e.name + ": " + e.message
  }

  /** `String(v)`. Plain objects use the default `Object.prototype.toString`. */
  function ToStr(v: Value): string
    decreases v
  {
    match v
    case Undefined => "undefined"
    case Null => "null"
    case Bool(b) => if b then "true" else "false"
    case Num(n) => IntToString(n)
    case Str(s) => s
    case Arr(elems) =>
      // `Array.prototype.join(',')`: `null` and `undefined` elements become empty
      Join(seq(|elems|, i requires 0 <= i < |elems| =>
        if elems[i].Undefined? || elems[i].Null? then "" else ToStr(elems[i])), ",")
    case Obj(_) => "[object Object]"
    case Func(source) => source
    case Err(e) => ErrorToString(e)
  }

  /** `parts.join(sep)`. */
  function Join(parts: seq<string>, sep: string): string {
    if parts == [] then "" else if |parts| == 1 then parts[0] else parts[0] + sep + Join(parts[1..], sep)
  }

  /** `xs.reduce((acc, x) => acc + f(x), '')`: the pieces of the elements concatenated left to right. */
  function ConcatMap<T>(f: T -> string, xs: seq<T>): string
    decreases |xs|
  {
    if xs == [] then "" else ConcatMap(f, xs[..|xs| - 1]) + f(xs[|xs| - 1])
  }

  /** The first element's piece comes first. */
  lemma {:induction false} ConcatMapCons<T>(f: T -> string, x: T, rest: seq<T>)
    ensures ConcatMap(f, [x] + rest) == f(x) + ConcatMap(f, rest)
    decreases |rest|
  {
    if rest == [] {
      assert [x] + rest == [x];
      assert [x][..0] == [];
    } else {
      var init := rest[..|rest| - 1];
      assert ([x] + rest)[..|rest|] == [x] + init;
      ConcatMapCons(f, x, init);
    }
  }

  /** Concatenating the lists concatenates the results. */
  lemma {:induction false} ConcatMapAppend<T>(f: T -> string, a: seq<T>, b: seq<T>)
    ensures ConcatMap(f, a + b) == ConcatMap(f, a) + ConcatMap(f, b)
    decreases |b|
  {
    if b == [] {
      assert a + b == a;
    } else {
      var init := b[..|b| - 1];
      assert (a + b)[..|a + b| - 1] == a + init;
      ConcatMapAppend(f, a, init);
    }
  }

  /** `[a, b].filter(Boolean).join(sep)`: the non-empty ones, with `sep` only between two non-empty ones. */
  lemma JoinNonEmptyPair(a: string, b: string, sep: string)
    ensures Join(NonEmpty([a, b]), sep) == if a == "" then b else if b == "" then a else a + sep + b
  {
    assert [a, b][1..] == [b];
    assert [b][1..] == [];
  }

  /** `parts.filter(Boolean)` on strings (and on falsy placeholders, which are modelled as `""`). */
  function NonEmpty(parts: seq<string>): (r: seq<string>)
    ensures |r| <= |parts|
    ensures forall i :: 0 <= i < |r| ==> r[i] != ""
  {
    if parts == [] then []
    else if parts[0] == "" then NonEmpty(parts[1..])
    else [parts[0]] + NonEmpty(parts[1..])
  }

  // ---------------------------------------------------------------------------
  // Substrings
  // ---------------------------------------------------------------------------

  predicate IsPrefix(p: string, s: string) {
    |p| <= |s| && s[..|p|] == p
  }

  /** `s.includes(needle)`. */
  predicate Includes(s: string, needle: string) {
    exists i :: 0 <= i <= |s| && IsPrefix(needle, s[i..])
  }

  /** The first index of character `c` in `s`, if any. */
  function IndexOfChar(s: string, c: char): (r: Option<nat>)
    ensures r.Some? ==> r.value < |s| && s[r.value] == c && c !in s[..r.value]
    ensures r.None? ==> c !in s
  {
    if s == [] then None
    else if s[0] == c then Some(0)
    else
      match IndexOfChar(s[1..], c)
      case None => None
      case Some(k) => Some(k + 1)
  }

  /** Searching past a prefix without `c` finds what searching the rest finds, shifted. */
  lemma {:induction false} IndexOfCharShift(p: string, t: string, c: char)
    requires c !in p
    ensures IndexOfChar(p + t, c) == (match IndexOfChar(t, c) case None => None case Some(j) => Some(|p| + j))
  {
    if p != [] {
      assert (p + t)[1..] == p[1..] + t;
      IndexOfCharShift(p[1..], t, c);
    } else {
      assert p + t == t;
    }
  }

  /** `s.replace('\n', with)`: a string pattern replaces its first occurrence only. */
  function ReplaceFirstNewline(s: string, with: string): string {
    match IndexOfChar(s, '\n')
    case None => s
    case Some(k) => s[..k] + with + s[k + 1..]
  }

  /** A string without a line break is left alone. */
  lemma ReplaceWithoutNewline(s: string, with: string)
    requires '\n' !in s
    ensures ReplaceFirstNewline(s, with) == s
  {
  }

  /** Only the first line break is replaced: everything after it, other line breaks included, is kept. */
  lemma ReplaceFirstNewlineSplit(a: string, b: string, with: string)
    requires '\n' !in a
    ensures ReplaceFirstNewline(a + "\n" + b, with) == a + with + b
  {
    IndexOfCharShift(a, "\n" + b, '\n');
    assert a + "\n" + b == a + ("\n" + b);
    var s := a + "\n" + b;
    assert s[..|a|] == a;
    assert s[|a| + 1..] == b;
  }
}
