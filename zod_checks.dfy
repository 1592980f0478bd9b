/**
 * The part of Zod's object parsing that the blog and event schemas rely on:
 * a string field with length, pattern and format checks, an enum field, an
 * optional field, a default, the "not in the past" refinement, and the
 * stripping of unknown keys. The format checks Zod implements with its own
 * parsers (URL, e-mail, ISO datetime, `new Date`) are given as functions.
 */
module ZodChecks {
  import opened Wrappers
  import opened Text
  import opened JsValues

  /** One entry of a ZodError: the dotted path of the failing value and its message. */
  datatype Issue = Issue(path: string, message: string)

  /** The parsers Zod and the refinements call; they are inputs of the model. */
  datatype Formats = Formats(
    isUrl: string -> bool,
    isEmail: string -> bool,
    isDatetime: string -> bool,
    parseDate: string -> Option<int>)

  /** One check of a `z.string()` chain with its message. */
  datatype StrRule =
    | MinLen(n: nat, msg: string)
    | MaxLen(n: nat, msg: string)
    | Regex(matches: string -> bool, msg: string)
    | Url(msg: string)
    | Email(msg: string)
    | Datetime(msg: string)

  predicate Holds(r: StrRule, s: string, fmt: Formats) {
    match r
    case MinLen(n, _) => |s| >= n
    case MaxLen(n, _) => |s| <= n
    case Regex(m, _) => m(s)
    case Url(_) => fmt.isUrl(s)
    case Email(_) => fmt.isEmail(s)
    case Datetime(_) => fmt.isDatetime(s)
  }

  predicate AllHold(rules: seq<StrRule>, s: string, fmt: Formats) {
    forall i :: 0 <= i < |rules| ==> Holds(rules[i], s, fmt)
  }

  /**
   * The issues a string raises: one per broken check, in the order of the
   * chain, since Zod runs every check of a string even after one fails.
   */
  function StringIssues(path: string, s: string, rules: seq<StrRule>, fmt: Formats): (issues: seq<Issue>)
    ensures |issues| <= |rules|
    ensures issues == [] <==> AllHold(rules, s, fmt)
    ensures forall i :: 0 <= i < |issues| ==> issues[i].path == path
  {
    if rules == [] then []
    else
      var first := if Holds(rules[0], s, fmt) then [] else [Issue(path, rules[0].msg)];
      var rest := StringIssues(path, s, rules[1..], fmt);
      assert AllHold(rules, s, fmt) <==> Holds(rules[0], s, fmt) && AllHold(rules[1..], s, fmt) by {
        if Holds(rules[0], s, fmt) && AllHold(rules[1..], s, fmt) {
          forall i | 0 <= i < |rules| ensures Holds(rules[i], s, fmt) {
            if i > 0 { assert rules[i] == rules[1..][i - 1]; }
          }
        }
        if AllHold(rules, s, fmt) {
          forall i | 0 <= i < |rules[1..]| ensures Holds(rules[1..][i], s, fmt) {
            assert rules[1..][i] == rules[i + 1];
          }
        }
      }
      first + rest
  }

  /** Zod's name for the type of a value, as it appears in "Expected …, received …". */
  function TypeName(v: JsValue): string {
    match v
    case Undefined => "undefined"
    case Null => "null"
    case Bool(_) => "boolean"
    case Num(_) => "number"
    case Str(_) => "string"
    case Arr(_) => "array"
    case Obj(_) => "object"
  }

  /** A key that is missing or holds `undefined`: what `.optional()` lets through and `.default()` replaces. */
  predicate Absent(o: JsObject, k: string) {
    k !in o || o[k] == Undefined
  }

  /** Zod's message for a missing required value. */
  const REQUIRED := "Required"

  function InvalidType(path: string, expected: string, v: JsValue): Issue {
    Issue(path, "Expected " + expected + ", received " + TypeName(v))
  }

  /**
   * `z.string()` with `rules` at key `k`, `.optional()` when `optional`: a
   * missing required value and a value of another type each raise one issue.
   */
  function StringField(o: JsObject, k: string, rules: seq<StrRule>, optional: bool, fmt: Formats): (issues: seq<Issue>)
    ensures issues == [] <==> if Absent(o, k) then optional else o[k].Str? && AllHold(rules, o[k].s, fmt)
  {
    if Absent(o, k) then (if optional then [] else [Issue(k, REQUIRED)])
    else if o[k].Str? then StringIssues(k, o[k].s, rules, fmt)
    else [InvalidType(k, "string", o[k])]
  }

  /** `'A' | 'B' | …` as Zod lists the options of an enum. */
  function QuotedOptions(values: seq<string>): string {
    if |values| == 0 then ""
    else if |values| == 1 then "'" + values[0] + "'"
    else "'" + values[0] + "' | " + QuotedOptions(values[1..])
  }

  /** `z.enum(values)` at key `k`, `.optional()` when `optional`. */
  function EnumField(o: JsObject, k: string, values: seq<string>, optional: bool): (issues: seq<Issue>)
    ensures issues == [] <==> if Absent(o, k) then optional else o[k].Str? && o[k].s in values
  {
    if Absent(o, k) then (if optional then [] else [Issue(k, REQUIRED)])
    else if !o[k].Str? then [InvalidType(k, QuotedOptions(values), o[k])]
    else if o[k].s in values then []
    else [Issue(k, "Invalid enum value. Expected " + QuotedOptions(values) + ", received '" + o[k].s + "'")]
  }

  /** The allowance both "not in the past" refinements give: one minute. */
  const PAST_BUFFER_MS := 60000

  /** `new Date(s) > new Date(now - 60000)`: an invalid date compares false. */
  predicate AfterBuffer(d: Option<int>, now: int) {
    d.Some? && d.value > now - PAST_BUFFER_MS
  }

  /**
   * `z.string().datetime(datetimeMsg).refine(after the buffer, refineMsg)`:
   * the refinement still runs when the format check failed, and is skipped
   * only when the value is missing or not a string.
   */
  function FutureDateField(
    o: JsObject, k: string, datetimeMsg: string, refineMsg: string, optional: bool, fmt: Formats, now: int)
    : (issues: seq<Issue>)
    ensures issues == [] <==>
              if Absent(o, k) then optional
              else o[k].Str? && fmt.isDatetime(o[k].s) && AfterBuffer(fmt.parseDate(o[k].s), now)
  {
    if Absent(o, k) then (if optional then [] else [Issue(k, REQUIRED)])
    else if !o[k].Str? then [InvalidType(k, "string", o[k])]
    else
      var s := o[k].s;
      (if fmt.isDatetime(s) then [] else [Issue(k, datetimeMsg)])
      + (if AfterBuffer(fmt.parseDate(s), now) then [] else [Issue(k, refineMsg)])
  }

  /** The keys of the schema that the input has; Zod drops every other key. */
  function Strip(o: JsObject, keys: set<string>): (r: JsObject)
    ensures r.Keys == o.Keys * keys
    ensures forall k :: k in r ==> r[k] == o[k]
  {
    map k | k in o && k in keys :: o[k]
  }

  /** The outcome of `schema.parse`: the parsed object, or the ZodError's issues. */
  function Outcome(issues: seq<Issue>, output: JsObject): (r: Result<JsObject, seq<Issue>>)
    ensures r.Success? <==> issues == []
    ensures r.Success? ==> r.value == output
    ensures r.Failure? ==> r.error == issues
  {
    if issues == [] then Success(output) else Failure(issues)
  }

  /** The value at `k` is a string meeting `ok`; a missing value passes only when `optional`. */
  predicate TextField(o: JsObject, k: string, optional: bool, ok: string -> bool) {
    if Absent(o, k) then optional else o[k].Str? && ok(o[k].s)
  }

  lemma OneRuleMeaning(rules: seq<StrRule>, s: string, fmt: Formats)
    requires |rules| == 1
    ensures AllHold(rules, s, fmt) <==> Holds(rules[0], s, fmt)
  {
  }

  /** A string field raises no issue exactly when its value meets `ok`, given that `ok` is what its checks mean. */
  lemma FieldMeaning(o: JsObject, k: string, rules: seq<StrRule>, optional: bool, fmt: Formats, ok: string -> bool)
    requires forall s :: AllHold(rules, s, fmt) <==> ok(s)
    ensures StringField(o, k, rules, optional, fmt) == [] <==> TextField(o, k, optional, ok)
  {
  }

  lemma SingleRuleField(o: JsObject, k: string, r: StrRule, optional: bool, fmt: Formats, ok: string -> bool)
    requires forall s :: Holds(r, s, fmt) <==> ok(s)
    ensures StringField(o, k, [r], optional, fmt) == [] <==> TextField(o, k, optional, ok)
  {
    forall s ensures AllHold([r], s, fmt) <==> ok(s) {
      OneRuleMeaning([r], s, fmt);
    }
    FieldMeaning(o, k, [r], optional, fmt, ok);
  }

  /** The issues of the elements of `z.array(z.string()…)` from index `from` on, at paths `path.i`. */
  function ElementIssues(path: string, items: seq<JsValue>, from: nat, rules: seq<StrRule>, fmt: Formats)
    : (issues: seq<Issue>)
    requires from <= |items|
    ensures issues == [] <==> forall j :: from <= j < |items| ==> items[j].Str? && AllHold(rules, items[j].s, fmt)
    decreases |items| - from
  {
    if from == |items| then []
    else
      var p := path + "." + NatToString(from);
      var here := if items[from].Str? then StringIssues(p, items[from].s, rules, fmt) else [InvalidType(p, "string", items[from])];
      here + ElementIssues(path, items, from + 1, rules, fmt)
  }

  /** Every element is a string meeting all the checks. */
  predicate AllStrings(items: seq<JsValue>, rules: seq<StrRule>, fmt: Formats) {
    forall j :: 0 <= j < |items| ==> items[j].Str? && AllHold(rules, items[j].s, fmt)
  }

  /** `z.array(z.string()…)` at key `k`, `.optional()` when `optional`. */
  function StringArrayField(o: JsObject, k: string, rules: seq<StrRule>, optional: bool, fmt: Formats)
    : (issues: seq<Issue>)
    ensures issues == [] <==> if Absent(o, k) then optional else o[k].Arr? && AllStrings(o[k].items, rules, fmt)
  {
    if Absent(o, k) then (if optional then [] else [Issue(k, REQUIRED)])
    else if o[k].Arr? then ElementIssues(k, o[k].items, 0, rules, fmt)
    else [InvalidType(k, "array", o[k])]
  }

  /** The issues of a nested object, with their paths under `prefix`. */
  function Nested(prefix: string, issues: seq<Issue>): (r: seq<Issue>)
    ensures |r| == |issues|
    ensures forall i :: 0 <= i < |r| ==> r[i] == Issue(prefix + "." + issues[i].path, issues[i].message)
  {
    seq(|issues|, i requires 0 <= i < |issues| => Issue(prefix + "." + issues[i].path, issues[i].message))
  }
}
