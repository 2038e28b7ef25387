/**
 * The container-friendly logger's entry preparation: every argument is
 * trimmed, arguments that trim to the empty string are dropped, and what
 * remains is kept as is (strings, numbers, booleans) or rendered by
 * `util.inspect`, before the whole list is JSON-stringified into one line.
 */
module ContainerLogger {
  import opened JsValues
  import opened Streams

  /**
   * `trimWhitespace(arg)`. The two replacements anchor `(\s*\n\s*|\s)+` at the start and at
   * the end; since `\s` already covers line breaks, each removes the whole whitespace run there.
   */
  function TrimWhitespace(arg: Value): (r: Value)
    ensures !arg.Str? ==> r == arg
    ensures arg.Str? ==> r.Str? && (r.s == [] || (!IsWhitespace(r.s[0]) && !IsWhitespace(r.s[|r.s| - 1])))
  {
    if arg.Str? then
      TrimIsInnerSlice(arg.s);
      Str(Trim(arg.s))
    else arg
  }

  /** Only whitespace is removed, and only at the ends: the result is an inner slice of the string. */
  lemma TrimWhitespaceIsInnerSlice(s: string)
    ensures var r := TrimWhitespace(Str(s)).s;
            exists i, j :: 0 <= i <= j <= |s| && r == s[i..j] && AllWhitespace(s[..i]) && AllWhitespace(s[j..])
  {
    TrimIsInnerSlice(s);
  }

  /** Trimming an already trimmed argument changes nothing. */
  lemma TrimWhitespaceIdempotent(arg: Value)
    ensures TrimWhitespace(TrimWhitespace(arg)) == TrimWhitespace(arg)
  {
    if arg.Str? {
      TrimIdempotent(arg.s);
    }
  }

  /** Inner whitespace survives: a string with no whitespace at its ends is returned unchanged. */
  lemma KeepsInnerWhitespace(s: string)
    requires s != [] && !IsWhitespace(s[0]) && !IsWhitespace(s[|s| - 1])
    ensures TrimWhitespace(Str(s)) == Str(s)
  {
    TrimOfTrimmed(s);
  }

  /** A string argument trims to the empty string exactly when it is all whitespace. */
  lemma TrimsToEmptyIffBlank(s: string)
    ensures TrimWhitespace(Str(s)) == Str("") <==> AllWhitespace(s)
  {
    TrimEmptyIffBlank(s);
  }

  /** The examples of the test suite, with the line break `os.EOL` is on POSIX systems. */
  lemma TrimWhitespaceExamples()
    ensures TrimWhitespace(Bool(false)) == Bool(false)
    ensures TrimWhitespace(Str("")) == Str("")
    ensures TrimWhitespace(Str("x  x")) == Str("x  x")
    ensures TrimWhitespace(Str("  " + "x  x" + "  ")) == Str("x  x")
    ensures TrimWhitespace(Str(" \n " + "x  x" + " \n ")) == Str("x  x")
    ensures TrimWhitespace(Str(" " + "- x  x" + " \n ")) == Str("- x  x")
  {
    KeepsInnerWhitespace("x  x");
    TrimPadded("  ", "x  x", "  ");
    TrimPadded(" \n ", "x  x", " \n ");
    TrimPadded(" ", "- x  x", " \n ");
  }

  /** `isNotEmptyOrLineBreak(arg)`: only the empty string fails. */
  function IsNotEmptyOrLineBreak(arg: Value): (r: bool)
    ensures !r <==> arg == Str("")
  {
    !(arg.Str? && |arg.s| == 0)
  }

  /** `transformValue(arg)`: strings, numbers and booleans pass through; anything else becomes its `util.inspect` rendering. */
  function TransformValue(arg: Value, inspect: Value -> string): (r: Value)
    ensures arg.Str? || arg.Num? || arg.Bool? ==> r == arg
    ensures !(arg.Str? || arg.Num? || arg.Bool?) ==> r == Str(inspect(arg))
  {
    if arg.Str? || arg.Num? || arg.Bool? then arg else Str(inspect(arg))
  }

  function MapTrim(args: seq<Value>): (r: seq<Value>)
    ensures |r| == |args|
    ensures forall i :: 0 <= i < |args| ==> r[i] == TrimWhitespace(args[i])
  {
    seq(|args|, i requires 0 <= i < |args| => TrimWhitespace(args[i]))
  }

  lemma MapTrimAppend(a: seq<Value>, b: seq<Value>)
    ensures MapTrim(a + b) == MapTrim(a) + MapTrim(b)
  {
    var l, r := MapTrim(a + b), MapTrim(a) + MapTrim(b);
    forall i | 0 <= i < |l| ensures l[i] == r[i] {
      if i < |a| {
        assert (a + b)[i] == a[i];
      } else {
        assert (a + b)[i] == b[i - |a|];
      }
    }
  }

  function MapTransform(args: seq<Value>, inspect: Value -> string): (r: seq<Value>)
    ensures |r| == |args|
    ensures forall i :: 0 <= i < |args| ==> r[i] == TransformValue(args[i], inspect)
  {
    seq(|args|, i requires 0 <= i < |args| => TransformValue(args[i], inspect))
  }

  lemma MapTransformAppend(a: seq<Value>, b: seq<Value>, inspect: Value -> string)
    ensures MapTransform(a + b, inspect) == MapTransform(a, inspect) + MapTransform(b, inspect)
  {
    var l, r := MapTransform(a + b, inspect), MapTransform(a, inspect) + MapTransform(b, inspect);
    forall i | 0 <= i < |l| ensures l[i] == r[i] {
      if i < |a| {
        assert (a + b)[i] == a[i];
      } else {
        assert (a + b)[i] == b[i - |a|];
      }
    }
  }

  /**
   * The arguments that survive the `.map(trimWhitespace).filter(isNotEmptyOrLineBreak)` steps:
   * no more than were given, none of them the empty string, and every string among them trimmed.
   */
  function Kept(args: seq<Value>): (r: seq<Value>)
    ensures |r| <= |args|
    ensures forall i :: 0 <= i < |r| ==> r[i] != Str("")
    ensures forall i :: 0 <= i < |r| && r[i].Str? ==> !IsWhitespace(r[i].s[0]) && !IsWhitespace(r[i].s[|r[i].s| - 1])
  {
    var trimmed := MapTrim(args);
    var kept := Filter(trimmed, IsNotEmptyOrLineBreak);
    forall i | 0 <= i < |kept| && kept[i].Str?
      ensures !IsWhitespace(kept[i].s[0]) && !IsWhitespace(kept[i].s[|kept[i].s| - 1])
    {
      KeptString(args, kept[i]);
    }
    kept
  }

  /** A string that survives trimming and the filter is nonempty with non-whitespace ends. */
  lemma KeptString(args: seq<Value>, x: Value)
    requires x in Filter(MapTrim(args), IsNotEmptyOrLineBreak) && x.Str?
    ensures x.s != [] && !IsWhitespace(x.s[0]) && !IsWhitespace(x.s[|x.s| - 1])
  {
    var trimmed := MapTrim(args);
    FilterMembership(trimmed, IsNotEmptyOrLineBreak, x);
    var j :| 0 <= j < |trimmed| && trimmed[j] == x;
    assert x == TrimWhitespace(args[j]);
  }

  /** The array `friendlyLogEntry` hands to `JSON.stringify`: the kept arguments, each transformed. */
  function FriendlyEntries(args: seq<Value>, inspect: Value -> string): (r: seq<Value>)
    ensures |r| == |Kept(args)| <= |args|
    ensures forall i :: 0 <= i < |r| ==> r[i] == TransformValue(Kept(args)[i], inspect)
  {
    MapTransform(Kept(args), inspect)
  }

  /**
   * `friendlyLogEntry(...args)`, with `JSON.stringify` as a parameter. Arguments that are all
   * blank strings leave nothing to encode, and the entry is the encoding of the empty array.
   */
  function FriendlyLogEntry(args: seq<Value>, inspect: Value -> string, stringify: Value -> string): (r: string)
    ensures (forall i :: 0 <= i < |args| ==> args[i].Str? && AllWhitespace(args[i].s)) ==> r == stringify(Arr([]))
  {
    BlankArgumentsKeepNothing(args, inspect);
    stringify(Arr(FriendlyEntries(args, inspect)))
  }

  /** Blank string arguments are all dropped. */
  lemma {:induction false} BlankArgumentsKeepNothing(args: seq<Value>, inspect: Value -> string)
    ensures (forall i :: 0 <= i < |args| ==> args[i].Str? && AllWhitespace(args[i].s)) ==> Kept(args) == []
  {
    if args != [] && forall i :: 0 <= i < |args| ==> args[i].Str? && AllWhitespace(args[i].s) {
      assert args == [args[0]] + args[1..];
      FriendlyEntriesInOrder([args[0]], args[1..], inspect);
      OneArgument(args[0], inspect);
      BlankArgumentsKeepNothing(args[1..], inspect);
    }
  }

  /** A blank string argument anywhere among the others does not change the entry. */
  lemma BlankArgumentIgnored(a: seq<Value>, blank: string, b: seq<Value>, inspect: Value -> string,
                             stringify: Value -> string)
    requires AllWhitespace(blank)
    ensures FriendlyLogEntry(a + [Str(blank)] + b, inspect, stringify) == FriendlyLogEntry(a + b, inspect, stringify)
  {
    FriendlyEntriesInOrder(a + [Str(blank)], b, inspect);
    FriendlyEntriesInOrder(a, [Str(blank)], inspect);
    FriendlyEntriesInOrder(a, b, inspect);
    OneArgument(Str(blank), inspect);
    assert Kept(a + [Str(blank)]) == Kept(a) + [] == Kept(a);
    assert Kept(a + [Str(blank)] + b) == Kept(a + b);
  }

  /** Entries are prepared one argument at a time, so the order of the arguments is kept. */
  lemma FriendlyEntriesInOrder(a: seq<Value>, b: seq<Value>, inspect: Value -> string)
    ensures Kept(a + b) == Kept(a) + Kept(b)
    ensures FriendlyEntries(a + b, inspect) == FriendlyEntries(a, inspect) + FriendlyEntries(b, inspect)
  {
    MapTrimAppend(a, b);
    FilterAppend(MapTrim(a), MapTrim(b), IsNotEmptyOrLineBreak);
    MapTransformAppend(Kept(a), Kept(b), inspect);
  }

  /** An argument is dropped exactly when it is an all-whitespace string; otherwise its trimmed, transformed self is the entry. */
  lemma OneArgument(arg: Value, inspect: Value -> string)
    ensures Kept([arg]) == [] <==> arg.Str? && AllWhitespace(arg.s)
    ensures Kept([arg]) != [] ==> FriendlyEntries([arg], inspect) == [TransformValue(TrimWhitespace(arg), inspect)]
  {
    assert MapTrim([arg]) == [TrimWhitespace(arg)];
    assert [TrimWhitespace(arg)][1..] == [];
    if arg.Str? {
      TrimEmptyIffBlank(arg.s);
    }
  }

  /** The test suite's single-argument entries: `'  x  x  '` becomes `'x  x'`, `false` and `123` stay, `undefined` is inspected. */
  lemma FriendlyEntriesExamples(inspect: Value -> string)
    ensures FriendlyEntries([], inspect) == []
    ensures FriendlyEntries([Str("  " + "x  x" + "  ")], inspect) == [Str("x  x")]
    ensures FriendlyEntries([Bool(false)], inspect) == [Bool(false)]
    ensures FriendlyEntries([Num(123)], inspect) == [Num(123)]
    ensures FriendlyEntries([Undefined], inspect) == [Str(inspect(Undefined))]
  {
    TrimWhitespaceExamples();
    OneArgument(Str("  " + "x  x" + "  "), inspect);
    OneArgument(Bool(false), inspect);
    OneArgument(Num(123), inspect);
    OneArgument(Undefined, inspect);
  }

  /** A padded argument followed by a lone line break, as in the emoji example: only the trimmed argument remains. */
  lemma LineBreakArgumentVanishes(w1: string, s: string, w2: string, inspect: Value -> string)
    requires AllWhitespace(w1) && AllWhitespace(w2)
    requires s != [] && !IsWhitespace(s[0]) && !IsWhitespace(s[|s| - 1])
    ensures FriendlyEntries([Str(w1 + s + w2), Str("\n")], inspect) == [Str(s)]
  {
    TrimPadded(w1, s, w2);
    OneArgument(Str(w1 + s + w2), inspect);
    OneArgument(Str("\n"), inspect);
    FriendlyEntriesInOrder([Str(w1 + s + w2)], [Str("\n")], inspect);
    assert [Str(w1 + s + w2)] + [Str("\n")] == [Str(w1 + s + w2), Str("\n")];
  }
}
