/**
 * The tagged logger: where a logger's tags are injected among the arguments
 * of each call, and how `withTags` and `createTaggedLogger` accumulate tags
 * on the same parent logger.
 */
module Logger {
  import opened JsValues
  import LogEvents

  /** The characters `.` does not match in a regular expression without the `s` flag. */
  predicate IsLineTerminator(c: char) {
    c == '\n' || c == '\r' || c == '\U{2028}' || c == '\U{2029}'
  }

  /** `\s*` at the start, matched greedily: the index of the first non-whitespace character. */
  function LeadingBlank(s: string): (i: nat)
    ensures i <= |s| && AllWhitespace(s[..i])
    ensures i < |s| ==> !IsWhitespace(s[i])
  {
    if s == [] || !IsWhitespace(s[0]) then 0
    else
      var i := LeadingBlank(s[1..]);
      i + 1
  }

  /** `[^\n]*` from `from`, matched greedily: the index of the next line feed, or the end. */
  function LineEnd(s: string, from: nat): (j: nat)
    requires from <= |s|
    ensures from <= j <= |s| && '\n' !in s[from..j]
    ensures j < |s| ==> s[j] == '\n'
    decreases |s| - from
  {
    if from == |s| || s[from] == '\n' then from
    else
      var j := LineEnd(s, from + 1);
      assert s[from..j] == [s[from]] + s[from + 1..j];
      j
  }

  /** `(.*)` matched greedily: everything up to the first line terminator. */
  function DotStar(s: string): (r: string)
    ensures IsPrefix(r, s)
    ensures forall k :: 0 <= k < |r| ==> !IsLineTerminator(r[k])
  {
    if s == [] || IsLineTerminator(s[0]) then "" else [s[0]] + DotStar(s[1..])
  }

  /**
   * `splitFirstLineAndBody(text)`: `[text, '']` for a blank text; otherwise the groups 1 and 3
   * of `/^(\s*([^\s\n]+[^\n]*)+)(.*)/u`. Group 1 is the leading blank and the first non-blank
   * line up to its line feed; group 3 then starts at that line feed or at the end.
   * The match always succeeds on a non-blank text, so the `!result` branch is unreachable.
   */
  function SplitFirstLineAndBody(text: string): (parts: (string, string))
    ensures IsPrefix(parts.0, text)
    ensures parts.1 == ""
    ensures AllWhitespace(text) ==> parts.0 == text
  {
    if AllWhitespace(text) then (text, "")
    else
      var j := LineEnd(text, LeadingBlank(text));
      assert j < |text| ==> text[j..][0] == '\n';
      (text[..j], DotStar(text[j..]))
  }

  /** The first part is the text up to the first line feed after its first non-blank character; the second is always empty. */
  lemma SplitAsWritten(text: string)
    requires !AllWhitespace(text)
    ensures var (first, body) := SplitFirstLineAndBody(text);
            IsPrefix(first, text) && !AllWhitespace(first) && body == ""
            && (|first| == |text| || text[|first|] == '\n')
            && '\n' !in first[LeadingBlank(text)..]
  {
    var i := LeadingBlank(text);
    var j := LineEnd(text, i);
    assert i < |text|;
    assert j > i by {
      if j == i {
        assert text[j] == '\n';
      }
    }
    assert text[..j][i] == text[i];
    assert text[..j][i..] == text[i..j];
  }

  /** `emptyOrWhitespace.test(arg)` for a string argument. */
  predicate IsBlankString(arg: Value) {
    arg.Str? && AllWhitespace(arg.s)
  }

  /** `args.findIndex(arg => !(typeof arg === 'string' && emptyOrWhitespace.test(arg)))`, with `None` for `-1`. */
  function InjectAt(args: seq<Value>): (k: Option<nat>)
    ensures k.None? ==> forall i :: 0 <= i < |args| ==> IsBlankString(args[i])
    ensures k.Some? ==> k.value < |args| && !IsBlankString(args[k.value])
                        && forall i :: 0 <= i < k.value ==> IsBlankString(args[i])
  {
    if args == [] then None
    else if !IsBlankString(args[0]) then Some(0)
    else
      match InjectAt(args[1..])
      case None => None
      case Some(k) => Some(k + 1)
  }

  /**
   * `determineTagsInjectionPoint(args)`: the arguments before the tags and the arguments after them.
   * Only the first non-blank argument is split or moved: the arguments before it stay in front,
   * those after it stay behind, and with no such argument everything goes in front.
   */
  function TagsInjectionPoint(args: seq<Value>): (split: (seq<Value>, seq<Value>))
    ensures InjectAt(args).None? ==> split == (args, [])
    ensures InjectAt(args).Some? ==>
              var k := InjectAt(args).value;
              k <= |split.0| <= k + 1 && split.0[..k] == args[..k]
              && |args| - (k + 1) <= |split.1| <= |args| - k
              && split.1[|split.1| - (|args| - (k + 1))..] == args[k + 1..]
  {
    match InjectAt(args)
    case None => (args, [])
    case Some(k) =>
      var before, arg, after := args[..k], args[k], args[k + 1..];
      if arg.Str? then
        var (firstLine, rest) := SplitFirstLineAndBody(arg.s);
        (if firstLine != "" then before + [Str(firstLine)] else before,
         if rest != "" then [Str(rest)] + after else after)
      else (before, [arg] + after)
  }

  /** `appendTags(args, tags)`: the arguments before the injection point, the tags, the rest. */
  function AppendTags(args: seq<Value>, tags: seq<Value>): (r: seq<Value>)
    ensures var (before, after) := TagsInjectionPoint(args);
            |r| == |before| + |tags| + |after| && r[..|before|] == before
            && r[|before|..|before| + |tags|] == tags && r[|before| + |tags|..] == after
  {
    var (before, after) := TagsInjectionPoint(args);
    before + tags + after
  }

  /** When every argument is a blank string, the tags go after all of them. */
  lemma TagsAfterBlankArguments(args: seq<Value>, tags: seq<Value>)
    requires forall i :: 0 <= i < |args| ==> IsBlankString(args[i])
    ensures AppendTags(args, tags) == args + tags
  {
    assert args + tags + [] == args + tags;
  }

  /** A first non-blank argument that is not a string gets the tags immediately before it. */
  lemma TagsBeforeNonString(args: seq<Value>, tags: seq<Value>, k: nat)
    requires InjectAt(args) == Some(k) && !args[k].Str?
    ensures AppendTags(args, tags) == args[..k] + tags + args[k..]
  {
    assert [args[k]] + args[k + 1..] == args[k..];
  }

  /**
   * A first non-blank argument that is a string keeps its first line before the tags. As written,
   * the rest of that string is not placed after the tags: it is dropped.
   */
  lemma TagsAfterFirstLine(args: seq<Value>, tags: seq<Value>, k: nat)
    requires InjectAt(args) == Some(k) && args[k].Str?
    ensures var first := SplitFirstLineAndBody(args[k].s).0;
            first != "" && IsPrefix(first, args[k].s)
            && AppendTags(args, tags) == args[..k] + [Str(first)] + tags + args[k + 1..]
  {
    SplitAsWritten(args[k].s);
    var first := SplitFirstLineAndBody(args[k].s).0;
    assert TagsInjectionPoint(args) == (args[..k] + [Str(first)], args[k + 1..]);
  }

  /** The as-written split on a two-line message: the second line is lost. */
  lemma SecondLineDropped(a: string, b: string, tags: seq<Value>)
    requires a != [] && !IsWhitespace(a[0]) && '\n' !in a
    ensures AppendTags([Str(a + "\n" + b)], tags) == [Str(a)] + tags
  {
    var s := a + "\n" + b;
    assert InjectAt([Str(s)]) == Some(0) by {
      assert !IsWhitespace(s[0]);
    }
    assert LeadingBlank(s) == 0;
    assert LineEnd(s, 0) == |a| by {
      assert s[|a|] == '\n';
    }
    assert s[..|a|] == a;
    SplitAsWritten(s);
    assert [Str(s)][..0] == [] && [Str(s)][1..] == [];
  }

  // ---------------------------------------------------------------------------
  // Tagged loggers
  // ---------------------------------------------------------------------------

  /** A basic logger, known only by its identity. */
  datatype BasicLogger = BasicLogger(id: nat)

  /** `taggedLoggerFactory(parent, startWith)`: the parent it forwards to and its locked tags. */
  datatype TaggedLogger = TaggedLogger(parent: BasicLogger, locked: seq<Value>) {
    /** The arguments `parent.log`, `parent.warn` or `parent.error` receives for a call with `args`. */
    function Forward(args: seq<Value>): (r: seq<Value>)
      ensures r == AppendTags(args, locked)
    {
      AppendTags(args, locked)
    }

    /** `withTags(...tags)`: a logger on the same parent with the locked tags followed by the new ones. */
    function WithTags(tags: seq<Value>): (l: TaggedLogger)
      ensures l.parent == parent && |l.locked| == |locked| + |tags|
      ensures l.locked[..|locked|] == locked && l.locked[|locked|..] == tags
    {
      TaggedLogger(parent, locked + tags)
    }

    /** The `logEvents` of the logger: a tagged factory with the logger's own tags, logging to the parent. */
    function LogEventsFactory(parentValue: Value): (f: LogEvents.TaggedLogEvents)
      ensures f.tags == locked && f.logger == parentValue
    {
      LogEvents.CreateTaggedLogEvents(locked, parentValue)
    }
  }

  /** A logger passed as `parent`: a tagged one carries `withTags` and `parent`, a basic one does not. */
  datatype AnyLogger = Basic(basic: BasicLogger) | Tagged(tagged: TaggedLogger)

  /** `createTaggedLogger(tags, parent)`, with `defaultBasicLogger()` as a parameter. */
  function CreateTaggedLogger(tags: seq<Value>, parent: Option<AnyLogger>, defaultLogger: BasicLogger): (l: TaggedLogger)
    ensures parent.Some? && parent.value.Tagged? ==> l == parent.value.tagged.WithTags(tags)
    ensures parent.Some? && parent.value.Basic? ==> l == TaggedLogger(parent.value.basic, tags)
    ensures parent.None? ==> l == TaggedLogger(defaultLogger, tags)
  {
    match parent
    case Some(Tagged(t)) => t.WithTags(tags)
    case Some(Basic(b)) => TaggedLogger(b, tags)
    case None => TaggedLogger(defaultLogger, tags)
  }

  /** Tags accumulate in call order on the one parent, however the calls are grouped. */
  lemma WithTagsAccumulates(l: TaggedLogger, a: seq<Value>, b: seq<Value>)
    ensures l.WithTags(a).WithTags(b) == l.WithTags(a + b)
    ensures l.WithTags([]) == l
  {
    assert l.locked + a + b == l.locked + (a + b);
    assert l.locked + [] == l.locked;
  }

  /** A tagged logger made from a tagged parent forwards to the parent's own parent with both tag lists, parent's first. */
  lemma NestedTaggedLogger(t: TaggedLogger, tags: seq<Value>, defaultLogger: BasicLogger, args: seq<Value>)
    ensures var l := CreateTaggedLogger(tags, Some(Tagged(t)), defaultLogger);
            l.parent == t.parent && l.Forward(args) == AppendTags(args, t.locked + tags)
  {
  }
}
