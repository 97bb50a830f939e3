/** The part of zod (version 3) the request schemas are built from: schemas as
    values, and `Parse`, which reads a JavaScript value against a schema the
    way zod's `_parse` does. Parsing yields a status — valid, dirty (checks
    failed but the value has the right shape, so refinements still run) or
    aborted — the output value (with defaults filled in, strings transformed
    and unknown object keys stripped), and the issues in the order zod reports
    them.

    The email regular expression differs between zod releases and is a
    parameter, `isEmail`. */
module Zod {

  import opened Wrappers
  import Strings

  /** A JavaScript value as a schema sees it. */
  datatype JsValue =
    | Undefined
    | Null
    | Bool(b: bool)
    | Num(n: real)
    | Str(s: string)
    | Date(time: int)                   // a valid Date, ms since the epoch
    | Instance(className: string)       // an object built by the class of that name
    | Arr(items: seq<JsValue>)
    | Obj(fields: map<string, JsValue>)

  /** `data[key]` for a plain object. */
  function Lookup(m: map<string, JsValue>, key: string): JsValue {
    if key in m then m[key] else Undefined
  }

  /** `v[key]` for a value that is an object, undefined otherwise. */
  function Get(v: JsValue, key: string): JsValue {
    if v.Obj? then Lookup(v.fields, key) else Undefined
  }

  datatype PathItem = Key(k: string) | Index(i: nat)

  datatype IssueCode =
    | InvalidType                                    // wrong type, or missing
    | InvalidEnumValue
    | TooSmall(minimum: real)
    | TooBig(maximum: real)
    | InvalidEmail
    | InvalidUnion(unionErrors: seq<seq<Issue>>)     // every option's own issues
    | Custom                                         // a refinement or an `instanceof` check

  /** An issue; `message` is the schema's own text, or None for zod's default text. */
  datatype Issue = Issue(code: IssueCode, path: seq<PathItem>, message: Option<string>)

  datatype StringCheck =
    | MinLength(minLength: nat, minMessage: Option<string>)    // .min(n)
    | MaxLength(maxLength: nat, maxMessage: Option<string>)    // .max(n)
    | Email(emailMessage: Option<string>)                      // .email()
    | Trim                                                     // .trim()
    | ToLowerCase                                              // .toLowerCase()

  datatype NumberCheck =
    | AtLeast(lower: real, lowerMessage: Option<string>)       // .min(x), inclusive
    | AtMost(upper: real, upperMessage: Option<string>)        // .max(x), inclusive

  datatype Schema =
    | ZString(requiredError: Option<string>, checks: seq<StringCheck>)
    | ZNumber(requiredError: Option<string>, numberChecks: seq<NumberCheck>)
    | ZBoolean
    | ZDate
    | ZEnum(options: seq<string>, requiredError: Option<string>)
    | ZInstanceOf(className: string)                           // z.instanceof(cls)
    | ZOptional(inner: Schema)
    | ZDefault(defaultValue: JsValue, inner: Schema)           // .optional().default(x) wraps the optional
    | ZArray(element: Schema)
    | ZUnion(left: Schema, right: Schema)                      // a.or(b)
    | ZObject(shape: seq<Field>)
    | ZRefine(base: Schema, check: JsValue -> bool, refinePath: seq<PathItem>, refineMessage: string)

  datatype Field = Field(key: string, schema: Schema)

  datatype Status = Valid | Dirty | Aborted

  datatype Parsed = Parsed(status: Status, value: JsValue, issues: seq<Issue>)

  /** zod's message choice for a type error of a schema built with `required_error`:
      that text when the value is missing, zod's default otherwise. */
  function TypeErrorMessage(requiredError: Option<string>, v: JsValue): Option<string> {
    if v.Undefined? then requiredError else None
  }

  function Abort(code: IssueCode, path: seq<PathItem>, message: Option<string>): Parsed {
    Parsed(Aborted, Undefined, [Issue(code, path, message)])
  }

  /** A value whose checks produced `issues`: valid when there are none. */
  function Checked(value: JsValue, issues: seq<Issue>): Parsed {
    Parsed(if issues == [] then Valid else Dirty, value, issues)
  }

  /** The status of a composite: aborted if a part aborted, else dirty if a part is dirty. */
  function Merge(a: Status, b: Status): Status {
    if a == Aborted || b == Aborted then Aborted
    else if a == Dirty || b == Dirty then Dirty
    else Valid
  }

  /** A string schema's checks, in declaration order: trimming and lower-casing
      replace the string the later checks see; a failed check records an issue
      and the remaining checks still run. */
  function StringChecks(str: string, checks: seq<StringCheck>, path: seq<PathItem>,
                        isEmail: string -> bool): (string, seq<Issue>)
    decreases checks
  {
    if checks == [] then (str, [])
    else
      match checks[0]
      case Trim => StringChecks(Strings.Trim(str), checks[1..], path, isEmail)
      case ToLowerCase => StringChecks(Strings.ToLower(str), checks[1..], path, isEmail)
      case MinLength(n, msg) =>
        var rest := StringChecks(str, checks[1..], path, isEmail);
        (rest.0, (if |str| < n then [Issue(TooSmall(n as real), path, msg)] else []) + rest.1)
      case MaxLength(n, msg) =>
        var rest := StringChecks(str, checks[1..], path, isEmail);
        (rest.0, (if |str| > n then [Issue(TooBig(n as real), path, msg)] else []) + rest.1)
      case Email(msg) =>
        var rest := StringChecks(str, checks[1..], path, isEmail);
        (rest.0, (if !isEmail(str) then [Issue(InvalidEmail, path, msg)] else []) + rest.1)
  }

  function NumberChecks(x: real, checks: seq<NumberCheck>, path: seq<PathItem>): seq<Issue> {
    if checks == [] then []
    else
      match checks[0]
      case AtLeast(lo, msg) => (if x < lo then [Issue(TooSmall(lo), path, msg)] else []) + NumberChecks(x, checks[1..], path)
      case AtMost(hi, msg) => (if x > hi then [Issue(TooBig(hi), path, msg)] else []) + NumberChecks(x, checks[1..], path)
  }

  /** The fields of an object value, none for anything else. */
  function FieldsOf(v: JsValue): map<string, JsValue> {
    if v.Obj? then v.fields else map[]
  }

  function ItemsOf(v: JsValue): seq<JsValue> {
    if v.Arr? then v.items else []
  }

  /** `schema._parse` at `path`. */
  function Parse(s: Schema, v: JsValue, path: seq<PathItem>, isEmail: string -> bool): Parsed
    decreases s, 1, 0
  {
    match s
    case ZString(req, checks) =>
      if !v.Str? then Abort(InvalidType, path, TypeErrorMessage(req, v))
      else
        var (out, issues) := StringChecks(v.s, checks, path, isEmail);
        Checked(Str(out), issues)
    case ZNumber(req, checks) =>
      if !v.Num? then Abort(InvalidType, path, TypeErrorMessage(req, v))
      else Checked(v, NumberChecks(v.n, checks, path))
    case ZBoolean =>
      if !v.Bool? then Abort(InvalidType, path, None) else Checked(v, [])
    case ZDate =>
      if !v.Date? then Abort(InvalidType, path, None) else Checked(v, [])
    case ZEnum(options, req) =>
      if !v.Str? then Abort(InvalidType, path, TypeErrorMessage(req, v))
      else if v.s !in options then Abort(InvalidEnumValue, path, None)
      else Checked(v, [])
    case ZInstanceOf(cls) =>
      if !(v.Instance? && v.className == cls) then Abort(Custom, path, Some("Input not instance of " + cls))
      else Checked(v, [])
    case ZOptional(inner) =>
      if v.Undefined? then Checked(Undefined, []) else Parse(inner, v, path, isEmail)
    case ZDefault(d, inner) =>
      Parse(inner, if v.Undefined? then d else v, path, isEmail)
    case ZArray(_) =>
      if !v.Arr? then Abort(InvalidType, path, None) else ParseItems(s, v.items, 0, path, isEmail)
    case ZUnion(l, r) =>
      var a := Parse(l, v, path, isEmail);
      var b := Parse(r, v, path, isEmail);
      if a.status == Valid then a
      else if b.status == Valid then b
      else if a.status == Dirty then a
      else if b.status == Dirty then b
      else Abort(InvalidUnion([a.issues, b.issues]), path, None)
    case ZObject(_) =>
      if !v.Obj? then Abort(InvalidType, path, None) else ParseFields(s, 0, v.fields, path, isEmail)
    case ZRefine(base, check, rpath, msg) =>
      var inner := Parse(base, v, path, isEmail);
      if inner.status == Aborted || check(inner.value) then inner
      else Parsed(Dirty, inner.value, inner.issues + [Issue(Custom, path + rpath, Some(msg))])
  }

  /** The shape's fields from index `i` on, each read from `m[key]`; a field is
      kept in the output when its parsed value is defined or the key was given.
      Keys outside the shape are dropped. */
  function ParseFields(s: Schema, i: nat, m: map<string, JsValue>, path: seq<PathItem>,
                       isEmail: string -> bool): Parsed
    requires s.ZObject? && i <= |s.shape|
    decreases s, 0, |s.shape| - i
  {
    if i == |s.shape| then Parsed(Valid, Obj(map[]), [])
    else
      var f := s.shape[i];
      assert f in s.shape;
      var head := Parse(f.schema, Lookup(m, f.key), path + [Key(f.key)], isEmail);
      var rest := ParseFields(s, i + 1, m, path, isEmail);
      var status := Merge(head.status, rest.status);
      var out := if !head.value.Undefined? || f.key in m then FieldsOf(rest.value)[f.key := head.value]
                 else FieldsOf(rest.value);
      Parsed(status, if status == Aborted then Undefined else Obj(out), head.issues + rest.issues)
  }

  /** The array's items from index `j` on. */
  function ParseItems(s: Schema, items: seq<JsValue>, j: nat, path: seq<PathItem>,
                      isEmail: string -> bool): Parsed
    requires s.ZArray? && j <= |items|
    decreases s, 0, |items| - j
  {
    if j == |items| then Parsed(Valid, Arr([]), [])
    else
      var head := Parse(s.element, items[j], path + [Index(j)], isEmail);
      var rest := ParseItems(s, items, j + 1, path, isEmail);
      var status := Merge(head.status, rest.status);
      Parsed(status, if status == Aborted then Undefined else Arr([head.value] + ItemsOf(rest.value)),
             head.issues + rest.issues)
  }

  datatype SafeParseResult = Success(data: JsValue) | Failure(issues: seq<Issue>)

  /** `schema.safeParse(v)`: success only for a valid parse. */
  function SafeParse(s: Schema, v: JsValue, isEmail: string -> bool): (r: SafeParseResult)
    ensures r.Success? <==> Parse(s, v, [], isEmail).status == Valid
  {
    var p := Parse(s, v, [], isEmail);
    if p.status == Valid then Success(p.value) else Failure(p.issues)
  }

  // ---------------------------------------------------------------------------
  // Object schema combinators

  function Keys(shape: seq<Field>): seq<string> {
    if shape == [] then [] else [shape[0].key] + Keys(shape[1..])
  }

  /** The fields of `shape` whose key is not in `keys`, in order (`.omit`). */
  function Omit(shape: seq<Field>, keys: set<string>): seq<Field>
  {
    if shape == [] then []
    else (if shape[0].key in keys then [] else [shape[0]]) + Omit(shape[1..], keys)
  }

  /** One step of `Omit` at position `j`. */
  lemma OmitStep(shape: seq<Field>, keys: set<string>, j: nat)
    requires j < |shape|
    ensures Omit(shape[j..], keys) == (if shape[j].key in keys then [] else [shape[j]]) + Omit(shape[j + 1..], keys)
  {
    assert shape[j..][0] == shape[j];
    assert shape[j..][1..] == shape[j + 1..];
  }

  function FieldOf(shape: seq<Field>, key: string): Option<Field> {
    if shape == [] then None
    else if shape[0].key == key then Some(shape[0])
    else FieldOf(shape[1..], key)
  }

  /** The first field with a key is the one found for it. */
  lemma {:induction false} FieldOfFirst(shape: seq<Field>, k: nat)
    requires k < |shape|
    requires forall j :: 0 <= j < k ==> shape[j].key != shape[k].key
    ensures FieldOf(shape, shape[k].key) == Some(shape[k])
  {
    if k > 0 {
      FieldOfFirst(shape[1..], k - 1);
    }
  }

  /** The fields named in `keys`, in the order of `keys` (`.pick`). */
  function Pick(shape: seq<Field>, keys: seq<string>): seq<Field> {
    if keys == [] then []
    else
      (match FieldOf(shape, keys[0]) case None => [] case Some(f) => [f]) + Pick(shape, keys[1..])
  }

  /** The shape with `more` laid over it (`.extend`): a field of `more` replaces
      the field of the same key in place, the others are appended. */
  function Extend(shape: seq<Field>, more: seq<Field>): seq<Field> {
    Overlay(shape, more) + Omit(more, set k | 0 <= k < |shape| :: shape[k].key)
  }

  function Overlay(shape: seq<Field>, more: seq<Field>): seq<Field> {
    if shape == [] then []
    else
      (match FieldOf(more, shape[0].key) case None => [shape[0]] case Some(f) => [f]) + Overlay(shape[1..], more)
  }

  /** Every field made optional (`.partial()`). */
  function Partial(shape: seq<Field>): (r: seq<Field>)
    ensures |r| == |shape|
    ensures forall i :: 0 <= i < |shape| ==> r[i] == Field(shape[i].key, ZOptional(shape[i].schema))
  {
    if shape == [] then [] else [Field(shape[0].key, ZOptional(shape[0].schema))] + Partial(shape[1..])
  }

  // ---------------------------------------------------------------------------
  // Properties of parsing

  /** A parse is valid exactly when it reports no issue: every dirty or aborted
      result carries at least one. */
  lemma {:induction false} ValidIffNoIssues(s: Schema, v: JsValue, path: seq<PathItem>, isEmail: string -> bool)
    ensures Parse(s, v, path, isEmail).status == Valid <==> Parse(s, v, path, isEmail).issues == []
    decreases s, 1, 0
  {
    match s
    case ZOptional(inner) =>
      if !v.Undefined? { ValidIffNoIssues(inner, v, path, isEmail); }
    case ZDefault(d, inner) =>
      ValidIffNoIssues(inner, if v.Undefined? then d else v, path, isEmail);
    case ZArray(_) =>
      if v.Arr? { ItemsValidIffNoIssues(s, v.items, 0, path, isEmail); }
    case ZUnion(l, r) =>
      ValidIffNoIssues(l, v, path, isEmail);
      ValidIffNoIssues(r, v, path, isEmail);
    case ZObject(_) =>
      if v.Obj? { FieldsValidIffNoIssues(s, 0, v.fields, path, isEmail); }
    case ZRefine(base, _, _, _) =>
      ValidIffNoIssues(base, v, path, isEmail);
    case _ =>
  }

  lemma {:induction false} FieldsValidIffNoIssues(s: Schema, i: nat, m: map<string, JsValue>, path: seq<PathItem>,
                                                  isEmail: string -> bool)
    requires s.ZObject? && i <= |s.shape|
    ensures ParseFields(s, i, m, path, isEmail).status == Valid <==> ParseFields(s, i, m, path, isEmail).issues == []
    decreases s, 0, |s.shape| - i
  {
    if i < |s.shape| {
      var f := s.shape[i];
      assert f in s.shape;
      ValidIffNoIssues(f.schema, Lookup(m, f.key), path + [Key(f.key)], isEmail);
      FieldsValidIffNoIssues(s, i + 1, m, path, isEmail);
    }
  }

  lemma {:induction false} ItemsValidIffNoIssues(s: Schema, items: seq<JsValue>, j: nat, path: seq<PathItem>,
                                                 isEmail: string -> bool)
    requires s.ZArray? && j <= |items|
    ensures ParseItems(s, items, j, path, isEmail).status == Valid <==> ParseItems(s, items, j, path, isEmail).issues == []
    decreases s, 0, |items| - j
  {
    if j < |items| {
      ValidIffNoIssues(s.element, items[j], path + [Index(j)], isEmail);
      ItemsValidIffNoIssues(s, items, j + 1, path, isEmail);
    }
  }

  /** Every issue is reported at or below the path being parsed. */
  lemma {:induction false} IssuesUnderPath(s: Schema, v: JsValue, path: seq<PathItem>, isEmail: string -> bool)
    ensures forall iss :: iss in Parse(s, v, path, isEmail).issues ==> path <= iss.path
    decreases s, 1, 0
  {
    match s
    case ZString(_, checks) =>
      if v.Str? { StringCheckIssuesAt(v.s, checks, path, isEmail); }
    case ZNumber(_, checks) =>
      if v.Num? { NumberCheckIssuesAt(v.n, checks, path); }
    case ZOptional(inner) =>
      if !v.Undefined? { IssuesUnderPath(inner, v, path, isEmail); }
    case ZDefault(d, inner) =>
      IssuesUnderPath(inner, if v.Undefined? then d else v, path, isEmail);
    case ZArray(_) =>
      if v.Arr? { ItemIssuesUnderPath(s, v.items, 0, path, isEmail); }
    case ZUnion(l, r) =>
      IssuesUnderPath(l, v, path, isEmail);
      IssuesUnderPath(r, v, path, isEmail);
    case ZObject(_) =>
      if v.Obj? { FieldIssuesUnderPath(s, 0, v.fields, path, isEmail); }
    case ZRefine(base, _, _, _) =>
      IssuesUnderPath(base, v, path, isEmail);
    case _ =>
  }

  lemma {:induction false} StringCheckIssuesAt(str: string, checks: seq<StringCheck>, path: seq<PathItem>,
                                               isEmail: string -> bool)
    ensures forall iss :: iss in StringChecks(str, checks, path, isEmail).1 ==> iss.path == path
    decreases checks
  {
    if checks != [] {
      match checks[0]
      case Trim => StringCheckIssuesAt(Strings.Trim(str), checks[1..], path, isEmail);
      case ToLowerCase => StringCheckIssuesAt(Strings.ToLower(str), checks[1..], path, isEmail);
      case _ => StringCheckIssuesAt(str, checks[1..], path, isEmail);
    }
  }

  lemma {:induction false} NumberCheckIssuesAt(x: real, checks: seq<NumberCheck>, path: seq<PathItem>)
    ensures forall iss :: iss in NumberChecks(x, checks, path) ==> iss.path == path
  {
    if checks != [] {
      NumberCheckIssuesAt(x, checks[1..], path);
    }
  }

  lemma {:induction false} FieldIssuesUnderPath(s: Schema, i: nat, m: map<string, JsValue>, path: seq<PathItem>,
                                                isEmail: string -> bool)
    requires s.ZObject? && i <= |s.shape|
    ensures forall iss :: iss in ParseFields(s, i, m, path, isEmail).issues ==> path <= iss.path
    decreases s, 0, |s.shape| - i
  {
    if i < |s.shape| {
      var f := s.shape[i];
      assert f in s.shape;
      IssuesUnderPath(f.schema, Lookup(m, f.key), path + [Key(f.key)], isEmail);
      FieldIssuesUnderPath(s, i + 1, m, path, isEmail);
      forall iss | iss in Parse(f.schema, Lookup(m, f.key), path + [Key(f.key)], isEmail).issues
        ensures path <= iss.path
      {
        assert path <= path + [Key(f.key)];
      }
    }
  }

  lemma {:induction false} ItemIssuesUnderPath(s: Schema, items: seq<JsValue>, j: nat, path: seq<PathItem>,
                                               isEmail: string -> bool)
    requires s.ZArray? && j <= |items|
    ensures forall iss :: iss in ParseItems(s, items, j, path, isEmail).issues ==> path <= iss.path
    decreases s, 0, |items| - j
  {
    if j < |items| {
      IssuesUnderPath(s.element, items[j], path + [Index(j)], isEmail);
      ItemIssuesUnderPath(s, items, j + 1, path, isEmail);
      forall iss | iss in Parse(s.element, items[j], path + [Index(j)], isEmail).issues
        ensures path <= iss.path
      {
        assert path <= path + [Index(j)];
      }
    }
  }

  /** The parse of the `k`th field of a shape, read from `m`. */
  function FieldParse(shape: seq<Field>, k: nat, m: map<string, JsValue>, path: seq<PathItem>,
                      isEmail: string -> bool): Parsed
    requires k < |shape|
  {
    Parse(shape[k].schema, Lookup(m, shape[k].key), path + [Key(shape[k].key)], isEmail)
  }

  /** An object parse from field `i` on is valid exactly when every remaining
      field's value is valid for its schema. */
  lemma {:induction false} FieldsValidIffEachValid(s: Schema, i: nat, m: map<string, JsValue>,
                                                   path: seq<PathItem>, isEmail: string -> bool)
    requires s.ZObject? && i <= |s.shape|
    ensures ParseFields(s, i, m, path, isEmail).status == Valid <==>
      forall k :: i <= k < |s.shape| ==>
        FieldParse(s.shape, k, m, path, isEmail).status == Valid
    decreases |s.shape| - i
  {
    if i < |s.shape| {
      FieldsValidIffEachValid(s, i + 1, m, path, isEmail);
      var head := FieldParse(s.shape, i, m, path, isEmail);
      assert ParseFields(s, i, m, path, isEmail).status == Merge(head.status, ParseFields(s, i + 1, m, path, isEmail).status);
    }
  }

  /** An object parse from field `i` on aborts exactly when some remaining
      field's parse aborts. */
  lemma {:induction false} FieldsAbortIffOneAborts(s: Schema, i: nat, m: map<string, JsValue>,
                                                   path: seq<PathItem>, isEmail: string -> bool)
    requires s.ZObject? && i <= |s.shape|
    ensures ParseFields(s, i, m, path, isEmail).status == Aborted <==>
      exists k :: i <= k < |s.shape| &&
        FieldParse(s.shape, k, m, path, isEmail).status == Aborted
    decreases |s.shape| - i
  {
    if i < |s.shape| {
      FieldsAbortIffOneAborts(s, i + 1, m, path, isEmail);
      var headAborts := FieldParse(s.shape, i, m, path, isEmail).status == Aborted;
      if headAborts {
        assert i <= i < |s.shape|;
      }
    }
  }

  /** Unless it aborts, an object parse from field `i` on outputs an object
      whose keys all belong to those fields. */
  lemma {:induction false} FieldsKeys(s: Schema, i: nat, m: map<string, JsValue>, path: seq<PathItem>,
                                      isEmail: string -> bool)
    requires s.ZObject? && i <= |s.shape|
    requires ParseFields(s, i, m, path, isEmail).status != Aborted
    ensures var out := ParseFields(s, i, m, path, isEmail).value;
      out.Obj? && forall key :: key in out.fields ==> exists k :: i <= k < |s.shape| && s.shape[k].key == key
    decreases |s.shape| - i
  {
    if i < |s.shape| {
      FieldsKeys(s, i + 1, m, path, isEmail);
    }
  }

  /** No other field of the shape has the key of field `k`. */
  predicate KeyUniqueAt(shape: seq<Field>, k: nat)
    requires k < |shape|
  {
    forall j :: 0 <= j < |shape| && j != k ==> shape[j].key != shape[k].key
  }

  /** Unless it aborts, an object parse from field `i` on gives, under the key of
      a field `k` whose key no other field has, that field's parsed value. */
  lemma {:induction false} FieldsValueAt(s: Schema, i: nat, m: map<string, JsValue>, path: seq<PathItem>,
                                         isEmail: string -> bool, k: nat)
    requires s.ZObject? && i <= k < |s.shape| && KeyUniqueAt(s.shape, k)
    requires ParseFields(s, i, m, path, isEmail).status != Aborted
    ensures FieldParse(s.shape, k, m, path, isEmail).status != Aborted
    ensures Get(ParseFields(s, i, m, path, isEmail).value, s.shape[k].key) == FieldParse(s.shape, k, m, path, isEmail).value
    decreases |s.shape| - i
  {
    var key := s.shape[k].key;
    if i == k {
      FieldsKeys(s, i + 1, m, path, isEmail);
      assert key !in ParseFields(s, i + 1, m, path, isEmail).value.fields;
    } else {
      FieldsValueAt(s, i + 1, m, path, isEmail, k);
      assert s.shape[i].key != key;
    }
  }

  /** Unless an object parse aborts, no field aborted, and reading the key of
      field `k` (a key no other field has) in the output gives that field's
      parsed value. */
  lemma ObjectField(shape: seq<Field>, m: map<string, JsValue>, path: seq<PathItem>,
                    isEmail: string -> bool, k: nat)
    requires k < |shape| && KeyUniqueAt(shape, k)
    requires Parse(ZObject(shape), Obj(m), path, isEmail).status != Aborted
    ensures FieldParse(shape, k, m, path, isEmail).status != Aborted
    ensures Get(Parse(ZObject(shape), Obj(m), path, isEmail).value, shape[k].key) ==
            FieldParse(shape, k, m, path, isEmail).value
  {
    FieldsValueAt(ZObject(shape), 0, m, path, isEmail, k);
  }

  /** Unless an object parse aborts, its output is an object holding only keys
      of the shape: unknown keys are stripped. */
  lemma ObjectStrips(shape: seq<Field>, m: map<string, JsValue>, path: seq<PathItem>, isEmail: string -> bool)
    requires Parse(ZObject(shape), Obj(m), path, isEmail).status != Aborted
    ensures var out := Parse(ZObject(shape), Obj(m), path, isEmail).value;
      out.Obj? && forall key :: key in out.fields ==> exists k :: 0 <= k < |shape| && shape[k].key == key
  {
    FieldsKeys(ZObject(shape), 0, m, path, isEmail);
  }

  /** Every issue of a field is among the issues of its object. */
  lemma {:induction false} FieldIssuesIncluded(s: Schema, i: nat, m: map<string, JsValue>, path: seq<PathItem>,
                                               isEmail: string -> bool, k: nat)
    requires s.ZObject? && i <= k < |s.shape|
    ensures forall iss :: iss in FieldParse(s.shape, k, m, path, isEmail).issues ==>
      iss in ParseFields(s, i, m, path, isEmail).issues
    decreases |s.shape| - i
  {
    if i < k {
      FieldIssuesIncluded(s, i + 1, m, path, isEmail, k);
    }
  }

  /** A key missing from the input whose every field is optional stays missing
      from the output (nothing defaults it). */
  lemma {:induction false} FieldsMissingOptional(s: Schema, i: nat, m: map<string, JsValue>, path: seq<PathItem>,
                                                 isEmail: string -> bool, key: string)
    requires s.ZObject? && i <= |s.shape|
    requires Lookup(m, key).Undefined?
    requires forall j :: i <= j < |s.shape| && s.shape[j].key == key ==> s.shape[j].schema.ZOptional?
    requires ParseFields(s, i, m, path, isEmail).status != Aborted
    ensures Get(ParseFields(s, i, m, path, isEmail).value, key) == Undefined
    decreases |s.shape| - i
  {
    if i < |s.shape| {
      FieldsMissingOptional(s, i + 1, m, path, isEmail, key);
    }
  }

  lemma ObjectMissingOptional(shape: seq<Field>, m: map<string, JsValue>, path: seq<PathItem>,
                              isEmail: string -> bool, key: string)
    requires Lookup(m, key).Undefined?
    requires forall j :: 0 <= j < |shape| && shape[j].key == key ==> shape[j].schema.ZOptional?
    requires Parse(ZObject(shape), Obj(m), path, isEmail).status != Aborted
    ensures Get(Parse(ZObject(shape), Obj(m), path, isEmail).value, key) == Undefined
  {
    FieldsMissingOptional(ZObject(shape), 0, m, path, isEmail, key);
  }

  /** `.omit` leaves no field with an omitted key. */
  lemma {:induction false} OmitDropsKeys(shape: seq<Field>, keys: set<string>)
    ensures forall j :: 0 <= j < |Omit(shape, keys)| ==> Omit(shape, keys)[j].key !in keys
  {
    if shape != [] {
      OmitDropsKeys(shape[1..], keys);
    }
  }

  /** A partial object schema accepts the empty object and outputs it unchanged. */
  lemma {:induction false} PartialAcceptsEmpty(shape: seq<Field>, i: nat, path: seq<PathItem>, isEmail: string -> bool)
    requires i <= |shape|
    ensures ParseFields(ZObject(Partial(shape)), i, map[], path, isEmail) == Parsed(Valid, Obj(map[]), [])
    decreases |shape| - i
  {
    if i < |shape| {
      var p := ZObject(Partial(shape));
      var f := p.shape[i];
      PartialAcceptsEmpty(shape, i + 1, path, isEmail);
      assert f.schema == ZOptional(shape[i].schema) && Lookup(map[], f.key) == Undefined;
      assert Parse(f.schema, Undefined, path + [Key(f.key)], isEmail) == Parsed(Valid, Undefined, []);
      assert FieldsOf(Obj(map[])) == map[];
    }
  }

  /** Unless the inner parse aborts, a refinement keeps the inner output and
      every inner issue in front of its own, and it reports nothing exactly when
      the inner parse reports nothing and the check holds; it aborts only when
      the inner parse does. */
  lemma RefineKeepsValue(base: Schema, check: JsValue -> bool, rpath: seq<PathItem>, msg: string,
                         v: JsValue, path: seq<PathItem>, isEmail: string -> bool)
    ensures var inner := Parse(base, v, path, isEmail);
      var r := Parse(ZRefine(base, check, rpath, msg), v, path, isEmail);
      (r.status == Aborted <==> inner.status == Aborted) &&
      (inner.status != Aborted ==>
         r.value == inner.value && inner.issues <= r.issues &&
         (r.issues == [] <==> inner.issues == [] && check(inner.value)))
  {
  }

  /** A union reports no issue exactly when one of its options reports none; it
      aborts exactly when both options abort, and otherwise its result is one
      option's result unchanged. */
  lemma UnionIssues(l: Schema, r: Schema, v: JsValue, path: seq<PathItem>, isEmail: string -> bool)
    ensures var a := Parse(l, v, path, isEmail);
      var b := Parse(r, v, path, isEmail);
      var u := Parse(ZUnion(l, r), v, path, isEmail);
      (u.issues == [] <==> a.issues == [] || b.issues == []) &&
      (u.status == Aborted <==> a.status == Aborted && b.status == Aborted) &&
      (u.status != Aborted ==> u == a || u == b)
  {
    ValidIffNoIssues(l, v, path, isEmail);
    ValidIffNoIssues(r, v, path, isEmail);
  }

  /** An array parse from item `j` on is valid exactly when every remaining item
      is valid for the element schema. */
  lemma {:induction false} ItemsValidIffEachValid(s: Schema, items: seq<JsValue>, j: nat, path: seq<PathItem>,
                                                  isEmail: string -> bool)
    requires s.ZArray? && j <= |items|
    ensures ParseItems(s, items, j, path, isEmail).status == Valid <==>
      forall k :: j <= k < |items| ==> Parse(s.element, items[k], path + [Index(k)], isEmail).status == Valid
    decreases |items| - j
  {
    if j < |items| {
      ItemsValidIffEachValid(s, items, j + 1, path, isEmail);
      var head := Parse(s.element, items[j], path + [Index(j)], isEmail);
      assert ParseItems(s, items, j, path, isEmail).status ==
        Merge(head.status, ParseItems(s, items, j + 1, path, isEmail).status);
    }
  }

  /** An array schema accepts exactly the arrays whose every item its element
      schema accepts. */
  lemma ArrayValid(element: Schema, v: JsValue, path: seq<PathItem>, isEmail: string -> bool)
    ensures Parse(ZArray(element), v, path, isEmail).status == Valid <==>
      v.Arr? && forall k :: 0 <= k < |v.items| ==> Parse(element, v.items[k], path + [Index(k)], isEmail).status == Valid
  {
    if v.Arr? {
      ItemsValidIffEachValid(ZArray(element), v.items, 0, path, isEmail);
    }
  }
}
