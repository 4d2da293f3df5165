/** Rule groups, their conditions, and the evaluation of one condition (apps/assessments/engine.py). */
module Rules {
  import opened Common
  import opened Sorting

  /** JSON values; a missing profile field reads as null. */
  datatype Json = JNull | JBool(flag: bool) | JNum(number: real) | JStr(text: string)
                | JArr(items: seq<Json>) | JObj(fields: map<string, Json>)

  datatype Operator = Exists | Eq | Ne | Gt | Gte | Lt | Lte | Between | In | NotIn | Unsupported(name: string)
  datatype MatchOperator = MatchAll | MatchAny | OtherMatch(name: string)

  datatype Condition = Condition(id: string, fieldKey: string, operator: Operator, value: Json, order: int, isRequired: bool)

  /** Score deltas are in cents, as the database column stores them. */
  datatype Outcome = Outcome(id: string, delta: int, isBlocking: bool, message: string, code: Option<string>)

  datatype Group = Group(id: string, code: string, name: string, priority: int, matchOperator: MatchOperator,
                         conditions: seq<Condition>, outcomes: seq<Outcome>)

  /** The normalised profile, and how the text of a number is read. */
  datatype Env = Env(profile: Json, parse: string -> Option<real>)

  function Tokens(path: string, prefix: string): seq<string> {
    if path == [] then [prefix]
    else if path[0] == '.' then [prefix] + Tokens(path[1..], [])
    else Tokens(path[1..], prefix + [path[0]])
  }

  function Resolve(current: Json, tokens: seq<string>): Json {
    if tokens == [] then current
    else if current.JObj? && tokens[0] in current.fields then Resolve(current.fields[tokens[0]], tokens[1..])
    else JNull
  }

  function FieldOf(env: Env, key: string): Json {
    Resolve(env.profile, Tokens(key, []))
  }

  /** Equality as the engine's language defines it: booleans are the numbers 0 and 1. */
  predicate Same(a: Json, b: Json) {
    match a
    case JNull => b.JNull?
    case JBool(x) => (b.JBool? && b.flag == x) || (b.JNum? && b.number == (if x then 1.0 else 0.0))
    case JNum(x) => (b.JNum? && b.number == x) || (b.JBool? && x == (if b.flag then 1.0 else 0.0))
    case JStr(x) => b.JStr? && b.text == x
    case JArr(xs) => b.JArr? && |xs| == |b.items| && forall i :: 0 <= i < |xs| ==> Same(xs[i], b.items[i])
    case JObj(m) => b.JObj? && m.Keys == b.fields.Keys && forall k :: k in m ==> Same(m[k], b.fields[k])
  }

  /** None where the conversion raises. */
  function ToFloat(env: Env, j: Json): Option<real> {
    match j
    case JBool(b) => Some(if b then 1.0 else 0.0)
    case JNum(n) => Some(n)
    case JStr(s) => env.parse(s)
    case _ => None
  }

  function Compare(op: Operator, a: real, b: real): bool {
    match op
    case Gt => a > b
    case Gte => a >= b
    case Lt => a < b
    case _ => a <= b
  }

  predicate Contains(xs: seq<Json>, x: Json) {
    exists i :: 0 <= i < |xs| && Same(xs[i], x)
  }

  function IsIn(actual: Json, expected: Json): Option<bool> {
    if !expected.JArr? then None
    else if actual.JArr? then Some(exists i :: 0 <= i < |actual.items| && Contains(expected.items, actual.items[i]))
    else Some(Contains(expected.items, actual))
  }

  /** The truth of one condition; None where the evaluation raises. */
  function Holds(env: Env, op: Operator, actual: Json, expected: Json): Option<bool> {
    match op
    case Exists => Some((actual != JNull) == (if expected.JBool? then expected.flag else true))
    case Eq => Some(Same(actual, expected))
    case Ne => Some(!Same(actual, expected))
    case Between =>
      if actual.JNull? then Some(false)
      else if !expected.JArr? || |expected.items| != 2 then None
      else
        var lower, upper, x := ToFloat(env, expected.items[0]), ToFloat(env, expected.items[1]), ToFloat(env, actual);
        if lower.None? || upper.None? || x.None? then None else Some(lower.value <= x.value <= upper.value)
    case In => IsIn(actual, expected)
    case NotIn => var r := IsIn(actual, expected); if r.None? then None else Some(!r.value)
    case Unsupported(_) => None
    case _ =>
      if actual.JNull? then Some(false)
      else
        var a, b := ToFloat(env, actual), ToFloat(env, expected);
        if a.None? || b.None? then None else Some(Compare(op, a.value, b.value))
  }

  function Truth(env: Env, c: Condition): Option<bool> {
    Holds(env, c.operator, FieldOf(env, c.fieldKey), c.value)
  }

  function GroupKey(): Group -> Key { (g: Group) => Key(g.priority, g.code, g.id) }

  function ConditionKey(): Condition -> Key { (c: Condition) => Key(c.order, c.fieldKey, c.id) }

  function OutcomeKey(): Outcome -> Key { (o: Outcome) => Key(if o.isBlocking then 1 else 0, "", o.id) }

  /** The conditions of a group in evaluation order. */
  function Ordered(g: Group): seq<Condition> {
    Sort(g.conditions, ConditionKey())
  }
}
