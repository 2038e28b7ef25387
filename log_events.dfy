/**
 * The argument and tag handling of `logEvents`: which notifications are
 * logged (`logOnFromParam`, `tagsFromLogOn`), how option objects are merged
 * (`logEventsParams`, the per-notification overrides of the simple and audit
 * loggers), the arguments each logger hands to the basic logger, and the
 * tag accumulation of the tagged factory.
 */
module LogEvents {
  import opened JsValues
  import opened Streams

  const Audit := "audit"

  /** An entry of the `on` option: a notification name, or an observable whose emissions trigger a log line. */
  datatype LogOnEntry = Note(name: string) | Trigger(id: nat)

  /** `isTagNotification(notification)`: everything except `'audit'`. */
  function IsTagNotification(e: LogOnEntry): (r: bool)
    ensures e.Trigger? ==> r
    ensures e.Note? ==> (r <==> e.name != Audit)
  {
    e != Note(Audit)
  }

  /** `isLogNotification(notification)`: `typeof notification === 'string'`. */
  predicate IsLogNotification(e: LogOnEntry) {
    e.Note?
  }

  /** `tagsFromLogOn(notifications)`: the entries, in order, without the `'audit'` ones. */
  function TagsFromLogOn(on: seq<LogOnEntry>): (r: seq<LogOnEntry>)
    ensures |r| <= |on|
    ensures Note(Audit) !in r
    ensures forall e :: e in r <==> e in on && e != Note(Audit)
  {
    forall e ensures e in Filter(on, IsTagNotification) <==> e in on && IsTagNotification(e) {
      FilterMembership(on, IsTagNotification, e);
    }
    Filter(on, IsTagNotification)
  }

  /** Tags are taken entry by entry, so the order of the entries is kept. */
  lemma TagsInOrder(a: seq<LogOnEntry>, b: seq<LogOnEntry>)
    ensures TagsFromLogOn(a + b) == TagsFromLogOn(a) + TagsFromLogOn(b)
  {
    FilterAppend(a, b, IsTagNotification);
  }

  // ---------------------------------------------------------------------------
  // Deduplication (`[...new Set(values)]`)
  // ---------------------------------------------------------------------------

  predicate Distinct(s: seq<LogOnEntry>) {
    forall i, j :: 0 <= i < j < |s| ==> s[i] != s[j]
  }

  /** The index of the first occurrence of `x`. */
  function FirstIndex(s: seq<LogOnEntry>, x: LogOnEntry): (i: nat)
    requires x in s
    ensures i < |s| && s[i] == x && x !in s[..i]
  {
    if s[0] == x then 0
    else
      assert s == [s[0]] + s[1..];
      var j := FirstIndex(s[1..], x);
      assert s[..j + 1] == [s[0]] + s[1..][..j];
      j + 1
  }

  lemma FirstIndexSnoc(s: seq<LogOnEntry>, z: LogOnEntry, x: LogOnEntry)
    requires x in s
    ensures x in s + [z] && FirstIndex(s + [z], x) == FirstIndex(s, x)
  {
    var i := FirstIndex(s, x);
    var t := s + [z];
    assert t[i] == x && t[..i] == s[..i];
  }

  /** The elements of a `Set` built from `s`, in insertion order: each value at its first occurrence. */
  function Dedupe(s: seq<LogOnEntry>): (r: seq<LogOnEntry>)
    ensures Distinct(r)
    ensures forall x :: x in r <==> x in s
    ensures forall i, j :: 0 <= i < j < |r| ==> FirstIndex(s, r[i]) < FirstIndex(s, r[j])
    decreases |s|
  {
    if s == [] then []
    else
      var init := s[..|s| - 1];
      var last := s[|s| - 1];
      assert s == init + [last];
      var d := Dedupe(init);
      forall x | x in init ensures FirstIndex(s, x) == FirstIndex(init, x) {
        FirstIndexSnoc(init, last, x);
      }
      if last in d then d
      else
        assert FirstIndex(s, last) == |s| - 1;
        d + [last]
  }

  /** A sequence that is already free of repetitions is its own deduplication. */
  lemma {:induction false} DedupeDistinct(s: seq<LogOnEntry>)
    requires Distinct(s)
    ensures Dedupe(s) == s
    decreases |s|
  {
    if s != [] {
      var init := s[..|s| - 1];
      assert Distinct(init);
      DedupeDistinct(init);
      assert s[|s| - 1] !in Dedupe(init) by {
        assert s[|s| - 1] !in init;
      }
    }
  }

  /** The default `on` option. */
  const DefaultLogOn: seq<LogOnEntry> :=
    [Note("next"), Note("error"), Note("complete"), Note("subscribe"), Note("unsubscribe")]

  /**
   * `logOnFromParam(on)`: the default notifications when `on` is not an array; otherwise the
   * notification names without repetitions, then the observables in their original order.
   */
  function LogOnFromParam(on: Option<seq<LogOnEntry>>): (r: seq<LogOnEntry>)
    ensures on.None? ==> r == DefaultLogOn
    ensures on.Some? ==> forall e :: e in r <==> e in on.value
    ensures on.Some? ==> r == Dedupe(Filter(on.value, IsLogNotification))
                              + Filter(on.value, (e: LogOnEntry) => !IsLogNotification(e))
  {
    match on
    case None => DefaultLogOn
    case Some(entries) =>
      var notes := Filter(entries, IsLogNotification);
      var others := Filter(entries, (e: LogOnEntry) => !IsLogNotification(e));
      forall e ensures e in notes + others <==> e in entries {
        FilterMembership(entries, IsLogNotification, e);
        FilterMembership(entries, (e: LogOnEntry) => !IsLogNotification(e), e);
      }
      Dedupe(notes) + others
  }

  /** The notification names appear once each, in the order of their first occurrence, ahead of every observable. */
  lemma LogOnShape(on: seq<LogOnEntry>)
    ensures var r := LogOnFromParam(Some(on));
            var n := |Dedupe(Filter(on, IsLogNotification))|;
            (forall i :: 0 <= i < n ==> r[i].Note?)
            && (forall i :: n <= i < |r| ==> r[i].Trigger?)
            && (forall i, j :: 0 <= i < j < n ==> r[i] != r[j])
  {
    var notes := Filter(on, IsLogNotification);
    var d := Dedupe(notes);
    forall i | 0 <= i < |d| ensures d[i].Note? {
      FilterMembership(on, IsLogNotification, d[i]);
    }
  }

  /** An `on` list of distinct names and no observable is used as given. */
  lemma DistinctNamesKept(on: seq<LogOnEntry>)
    requires Distinct(on) && forall i :: 0 <= i < |on| ==> on[i].Note?
    ensures LogOnFromParam(Some(on)) == on
  {
    FilterAll(on, IsLogNotification);
    FilterNone(on, (e: LogOnEntry) => !IsLogNotification(e));
    DedupeDistinct(on);
  }

  /** Whether `logEvents` builds the audit-style logger: `'audit'` or an observable trigger is among the entries. */
  predicate UsesAuditLog(logOn: seq<LogOnEntry>) {
    Note(Audit) in logOn || exists i :: 0 <= i < |logOn| && logOn[i].Trigger?
  }

  /** The choice does not depend on deduplication: it is made as if on the `on` option itself, and never for the default. */
  lemma AuditChoice(on: Option<seq<LogOnEntry>>)
    ensures on.None? ==> !UsesAuditLog(LogOnFromParam(on))
    ensures on.Some? ==> (UsesAuditLog(LogOnFromParam(on)) <==> UsesAuditLog(on.value))
  {
    var r := LogOnFromParam(on);
    if on.Some? {
      if exists i :: 0 <= i < |on.value| && on.value[i].Trigger? {
        var i :| 0 <= i < |on.value| && on.value[i].Trigger?;
        assert on.value[i] in r;
      }
      if exists i :: 0 <= i < |r| && r[i].Trigger? {
        var i :| 0 <= i < |r| && r[i].Trigger?;
        assert r[i] in on.value;
      }
    }
  }

  // ---------------------------------------------------------------------------
  // Parameters
  // ---------------------------------------------------------------------------

  /** An option object: its own enumerable properties. */
  type Params = map<string, Value>

  /** The argument of `logEvents`: a prefix string or an option object. */
  datatype LogEventsArg = Prefix(prefix: string) | Options(props: Params)

  /** `logEventsParams(arg, defaultLogger)`: `{ logger: defaultLogger, ...(string ? { prefix } : arg) }`. */
  function LogEventsParams(arg: LogEventsArg, defaultLogger: Value): (p: Params)
    ensures "logger" in p
    ensures arg.Prefix? ==> p == map["logger" := defaultLogger, "prefix" := Str(arg.prefix)]
    ensures arg.Options? ==> p.Keys == arg.props.Keys + {"logger"}
    ensures arg.Options? ==> forall k :: k in arg.props ==> p[k] == arg.props[k]
    ensures arg.Options? && "logger" !in arg.props ==> p["logger"] == defaultLogger
  {
    map["logger" := defaultLogger] + (match arg case Prefix(s) => map["prefix" := Str(s)] case Options(props) => props)
  }

  /** A property of an option object, `undefined` when absent. */
  function Get(p: Params, key: string): Value {
    if key in p then p[key] else Undefined
  }

  /** `{ ...paramsRaw, ...paramsRaw[notification] }`: the notification's own option object overrides the base options. */
  function MergedParams(raw: Params, notification: string): (p: Params)
    ensures p.Keys == raw.Keys + (if Get(raw, notification).Obj? then Get(raw, notification).props.Keys else {})
    ensures forall k :: k in p ==> p[k] == if Get(raw, notification).Obj? && k in Get(raw, notification).props
                                           then Get(raw, notification).props[k] else raw[k]
  {
    raw + (if Get(raw, notification).Obj? then Get(raw, notification).props else map[])
  }

  /** A notification without an option object of its own uses the base options unchanged. */
  lemma MergeWithoutOverride(raw: Params, notification: string)
    requires !Get(raw, notification).Obj?
    ensures MergedParams(raw, notification) == raw
  {
  }

  /** Spreading an array option (`...(params.tags || [])`, `...(params.suffix ?? [])`): its elements, none when it is absent. */
  function Spread(v: Value): seq<Value> {
    if v.Arr? then v.elems else []
  }

  /** What a notification carries into the loggers. */
  datatype Info = Info(notification: string, value: Value, error: Value, lastValue: Value)

  datatype Level = LogLevel | ErrorLevel

  /** One call of the basic logger: its level and its arguments. */
  datatype LogCall = LogCall(level: Level, args: seq<Value>)

  /**
   * `buildSimpleLog(paramsRaw)(info)`: the prefix, the notification in parentheses, the tags,
   * then the value for `next` or the error for `error`, then the suffix. Errors go to `error`.
   */
  function SimpleLog(raw: Params, info: Info): (c: LogCall)
    ensures var p := MergedParams(raw, info.notification);
            |c.args| >= 2 + |Spread(Get(p, "tags"))|
            && c.args[0] == Get(p, "prefix") && c.args[1] == Str("(" + info.notification + ")")
            && c.args[2..2 + |Spread(Get(p, "tags"))|] == Spread(Get(p, "tags"))
    ensures c.level == ErrorLevel <==> info.notification == "error"
    ensures var p := MergedParams(raw, info.notification);
            var description := [Get(p, "prefix"), Str("(" + info.notification + ")")] + Spread(Get(p, "tags"));
            var suffix := Spread(Get(p, "suffix"));
            && (info.notification == "next" ==> c.args == description + [info.value] + suffix)
            && (info.notification == "error" ==> c.args == description + [info.error] + suffix)
            && (info.notification != "next" && info.notification != "error" ==> c.args == description + suffix)
  {
    var p := MergedParams(raw, info.notification);
    var description := [Get(p, "prefix"), Str("(" + info.notification + ")")] + Spread(Get(p, "tags"));
    var suffix := Spread(Get(p, "suffix"));
    if info.notification == "next" then LogCall(LogLevel, description + [info.value] + suffix)
    else if info.notification == "error" then LogCall(ErrorLevel, description + [info.error] + suffix)
    else LogCall(LogLevel, description + suffix)
  }

  /**
   * `buildAuditLog(paramsRaw)(info)`: the prefix and the tags, then for `audit` and `unsubscribe`
   * the last observed value, for `next` the value and for `error` the error, then the suffix.
   * An `audit` with no last value logs nothing. Every line goes to `log`.
   */
  function AuditLog(raw: Params, info: Info): (c: Option<LogCall>)
    ensures c.None? <==> info.notification == Audit && !Truthy(info.lastValue)
    ensures c.Some? ==> c.value.level == LogLevel && |c.value.args| >= 1
                        && c.value.args[0] == Get(MergedParams(raw, info.notification), "prefix")
    ensures c.Some? && (info.notification == Audit || info.notification == "unsubscribe") ==>
              var n := 1 + |Spread(Get(MergedParams(raw, info.notification), "tags"))|;
              |c.value.args| >= n + 2 && c.value.args[n] == Str("last-observed:") && c.value.args[n + 1] == info.lastValue
    ensures var p := MergedParams(raw, info.notification);
            var description := [Get(p, "prefix")] + Spread(Get(p, "tags"));
            var suffix := Spread(Get(p, "suffix"));
            c.Some? ==>
              && (info.notification == Audit || info.notification == "unsubscribe" ==>
                    c.value.args == description + [Str("last-observed:"), info.lastValue] + suffix)
              && (info.notification == "next" ==> c.value.args == description + [info.value] + suffix)
              && (info.notification == "error" ==> c.value.args == description + [info.error] + suffix)
              && (info.notification !in {Audit, "unsubscribe", "next", "error"} ==> c.value.args == description + suffix)
  {
    var p := MergedParams(raw, info.notification);
    var description := [Get(p, "prefix")] + Spread(Get(p, "tags"));
    var suffix := Spread(Get(p, "suffix"));
    if info.notification == Audit then
      if !Truthy(info.lastValue) then None
      else Some(LogCall(LogLevel, description + [Str("last-observed:"), info.lastValue] + suffix))
    else if info.notification == "unsubscribe" then
      Some(LogCall(LogLevel, description + [Str("last-observed:"), info.lastValue] + suffix))
    else if info.notification == "next" then Some(LogCall(LogLevel, description + [info.value] + suffix))
    else if info.notification == "error" then Some(LogCall(LogLevel, description + [info.error] + suffix))
    else Some(LogCall(LogLevel, description + suffix))
  }

  /** A prefix given for one notification replaces the base prefix on that notification's lines only. */
  lemma NotificationPrefixOverrides(raw: Params, info: Info, prefix: Value)
    requires Get(raw, info.notification).Obj? && "prefix" in Get(raw, info.notification).props
    requires Get(raw, info.notification).props["prefix"] == prefix
    ensures SimpleLog(raw, info).args[0] == prefix
    ensures AuditLog(raw, info).Some? ==> AuditLog(raw, info).value.args[0] == prefix
  {
  }

  /** A simple `next` line: prefix, `(next)`, tags, value and suffix, in that order. */
  lemma SimpleNextLine(raw: Params, value: Value)
    requires !Get(raw, "next").Obj?
    ensures SimpleLog(raw, Info("next", value, Undefined, Undefined)).args
            == [Get(raw, "prefix"), Str("(next)")] + Spread(Get(raw, "tags")) + [value] + Spread(Get(raw, "suffix"))
  {
    MergeWithoutOverride(raw, "next");
    assert MergedParams(raw, "next") == raw;
    assert "(" + "next" + ")" == "(next)";
  }

  // ---------------------------------------------------------------------------
  // Tagged factory
  // ---------------------------------------------------------------------------

  /** `taggedLogEventsFactory(startWith, logger)`: its tag list and its default logger. */
  datatype TaggedLogEvents = TaggedLogEvents(tags: seq<Value>, logger: Value) {
    /**
     * The options a call of the tagged `logEvents` passes on: `logEventsParams(arg, logger)`
     * with `tags` replaced by the caller's tags followed by the factory's.
     */
    function Params(arg: LogEventsArg): (p: Params)
      ensures "tags" in p && p["tags"] == Arr(Spread(Get(LogEventsParams(arg, logger), "tags")) + tags)
      ensures forall k :: k in LogEventsParams(arg, logger) && k != "tags" ==> k in p && p[k] == LogEventsParams(arg, logger)[k]
      ensures p.Keys == LogEventsParams(arg, logger).Keys + {"tags"}
    {
      var params := LogEventsParams(arg, logger);
      params["tags" := Arr(Spread(Get(params, "tags")) + tags)]
    }

    /** `withTags(...extraTags)`: a factory with the extra tags after its own, and the same logger. */
    function WithTags(extra: seq<Value>): (f: TaggedLogEvents)
      ensures f.logger == logger && |f.tags| == |tags| + |extra|
      ensures f.tags[..|tags|] == tags && f.tags[|tags|..] == extra
    {
      TaggedLogEvents(tags + extra, logger)
    }
  }

  /** `createTaggedLogEvents(tags, logger)`. */
  function CreateTaggedLogEvents(tags: seq<Value>, logger: Value): (f: TaggedLogEvents)
    ensures f.tags == tags && f.logger == logger
  {
    TaggedLogEvents(tags, logger)
  }

  /** Tags accumulate: successive `withTags` calls append in call order, and a call's own tags come first. */
  lemma WithTagsAccumulates(f: TaggedLogEvents, a: seq<Value>, b: seq<Value>, callerTags: seq<Value>, props: Params)
    requires "tags" in props && props["tags"] == Arr(callerTags)
    ensures f.WithTags(a).WithTags(b) == f.WithTags(a + b)
    ensures f.WithTags(a).Params(Options(props))["tags"] == Arr(callerTags + f.tags + a)
  {
    assert f.tags + a + b == f.tags + (a + b);
    assert callerTags + (f.tags + a) == callerTags + f.tags + a;
  }

  /** A plain prefix string brings no tags of its own: only the factory's remain, and its logger is used. */
  lemma PrefixCallTags(f: TaggedLogEvents, prefix: string)
    ensures f.Params(Prefix(prefix)) == map["logger" := f.logger, "prefix" := Str(prefix), "tags" := Arr(f.tags)]
  {
    var params := LogEventsParams(Prefix(prefix), f.logger);
    assert params == map["logger" := f.logger, "prefix" := Str(prefix)];
    assert Get(params, "tags") == Undefined;
    assert Spread(Get(params, "tags")) + f.tags == f.tags;
    assert f.Params(Prefix(prefix)) == params["tags" := Arr(f.tags)];
  }
}
