/**
 Rows and predicates shared by the adapters, with the meaning the in-memory adapter gives to
 a predicate.
 */
module Records {
  import opened Strings

  datatype Kind = Integer | Float

  /** A stored value. Nil is both an explicit nil and a missing field. */
  datatype Value =
    | Nil
    | Text(text: string)
    | Number(kind: Kind, amount: real)
    | Boolean(flag: bool)
    | Instant(nanos: int)
    | Items(items: seq<Value>)

  type Record = map<string, Value>

  function Get(record: Record, field: string): Value {
    if field in record then record[field] else Nil
  }

  // ---------------------------------------------------------------- printing and comparing

  function Decimal(n: nat): string {
    if n < 10 then [Digit(n)] else Decimal(n / 10) + [Digit(n % 10)]
  }

  function Digit(n: nat): char
    requires n < 10
  {
    (('0' as int) + n) as char
  }

  function SignedDecimal(n: int): string {
    if n < 0 then "-" + Decimal(-n) else Decimal(n)
  }

  /** fmt.Sprint. Numbers print as integers and instants as nanoseconds. */
  function Printed(v: Value): string {
    match v
    case Nil => "<nil>"
    case Text(text) => text
    case Number(_, amount) => SignedDecimal(amount.Floor)
    case Boolean(flag) => if flag then "true" else "false"
    case Instant(nanos) => SignedDecimal(nanos)
    case Items(items) => "[" + PrintedItems(items) + "]"
  }

  function PrintedItems(items: seq<Value>): string {
    if items == [] then ""
    else if |items| == 1 then Printed(items[0])
    else Printed(items[0]) + " " + PrintedItems(items[1..])
  }

  datatype Order = Less | Equal | Greater

  /** strings.Compare. */
  function CompareText(a: string, b: string): Order {
    if a == "" then (if b == "" then Equal else Less)
    else if b == "" then Greater
    else if a[0] < b[0] then Less
    else if b[0] < a[0] then Greater
    else CompareText(a[1..], b[1..])
  }

  function Compare(a: Value, b: Value): Order {
    if a.Instant? && b.Instant? then
      (if a.nanos < b.nanos then Less else if a.nanos > b.nanos then Greater else Equal)
    else if a.Number? && b.Number? then
      (if a.amount < b.amount then Less else if a.amount > b.amount then Greater else Equal)
    else CompareText(Printed(a), Printed(b))
  }

  // ---------------------------------------------------------------- predicates

  datatype Operator =
    | EQ | NE | LT | LTE | GT | GTE | In | NotIn | Contains | StartsWith | EndsWith

  predicate ListOperator(operator: Operator) {
    operator == In || operator == NotIn
  }

  datatype Connector = And | Or

  datatype Mode = Sensitive | Insensitive

  datatype Where = Where(field: string, operator: Operator, value: Value, connector: Connector, mode: Mode)

  predicate HasPrefix(s: string, prefix: string) {
    prefix <= s
  }

  predicate HasSuffix(s: string, suffix: string) {
    |suffix| <= |s| && s[|s| - |suffix|..] == suffix
  }

  predicate HasSubstring(s: string, part: string) {
    exists i | 0 <= i <= |s| :: HasPrefix(s[i..], part)
  }

  /** match: one condition against one stored value. */
  predicate Match(stored: Value, condition: Where) {
    var folds := condition.mode == Insensitive;
    var actual := if folds then Text(ToLower(Printed(stored))) else stored;
    var expected := if folds then Text(ToLower(Printed(condition.value))) else condition.value;
    match condition.operator
    case EQ => actual == expected
    case NE => actual != expected
    case LT => Compare(actual, expected) == Less
    case LTE => Compare(actual, expected) != Greater
    case GT => Compare(actual, expected) == Greater
    case GTE => Compare(actual, expected) != Less
    case Contains => HasSubstring(Printed(actual), Printed(expected))
    case StartsWith => HasPrefix(Printed(actual), Printed(expected))
    case EndsWith => HasSuffix(Printed(actual), Printed(expected))
    case In => expected.Items? && actual in expected.items
    case NotIn => !(expected.Items? && actual in expected.items)
  }

  predicate MatchesAt(record: Record, condition: Where) {
    Match(Get(record, condition.field), condition)
  }

  /** All AND conditions, and at least one of the OR conditions when there are any. */
  predicate Matches(record: Record, where_: seq<Where>) {
    && (forall c | c in where_ && c.connector == And :: MatchesAt(record, c))
    && ((exists c | c in where_ :: c.connector == Or) ==>
          exists c | c in where_ :: c.connector == Or && MatchesAt(record, c))
  }

  method MatchRecord(record: Record, where_: seq<Where>) returns (matches: bool)
    ensures matches == Matches(record, where_)
  {
    if |where_| == 0 {
      return true;
    }
    var andMatch, orPresent, orMatch := true, false, false;
    for i := 0 to |where_|
      invariant andMatch <==> forall c | c in where_[..i] && c.connector == And :: MatchesAt(record, c)
      invariant orPresent <==> exists c | c in where_[..i] :: c.connector == Or
      invariant orMatch <==> exists c | c in where_[..i] :: c.connector == Or && MatchesAt(record, c)
    {
      var condition := where_[i];
      assert where_[..i + 1] == where_[..i] + [condition];
      var result := MatchesAt(record, condition);
      if condition.connector == Or {
        orPresent := true;
        orMatch := orMatch || result;
      } else {
        andMatch := andMatch && result;
      }
    }
    assert where_[..|where_|] == where_;
    return andMatch && (!orPresent || orMatch);
  }

  /** ValidateWhere: a predicate names its fields, and may be empty only for reads. */
  predicate ValidWhere(where_: seq<Where>, allowEmpty: bool) {
    (where_ != [] || allowEmpty) && forall c | c in where_ :: c.field != ""
  }
}
