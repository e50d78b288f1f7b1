/**
 Compiling predicates to SQL with numbered placeholders. A statement is a small syntax tree;
 Eval gives it SQL's three-valued meaning, with binary text order and PostgreSQL's
 case-sensitive LIKE.
 */
module SqlCompiler {
  import opened Wrappers
  import opened Strings
  import opened Records

  datatype Column = Column(name: string, lowered: bool)

  datatype Comparison = IsEqual | IsNotEqual | IsLess | IsAtMost | IsGreater | IsAtLeast

  /** Positions count placeholders from one. */
  datatype Expr =
    | IsNull(column: Column)
    | IsNotNull(column: Column)
    | Compares(column: Column, comparison: Comparison, position: nat)
    | Like(column: Column, position: nat)
    | InList(column: Column, positions: seq<nat>, negated: bool)
    | Always(holds: bool)

  /** (a AND b) AND (c OR d), with either group left out when it is empty. */
  datatype WhereClause = WhereClause(ands: seq<Expr>, ors: seq<Expr>)

  datatype Error = InvalidWhere | UnknownField(field: string) | NilOperand | NotText | NotList

  // ---------------------------------------------------------------- meaning of SQL

  datatype Truth = True | False | Unknown

  function ToTruth(b: bool): Truth { if b then True else False }

  function SqlOrder(a: Value, b: Value): Option<Order> {
    if a.Text? && b.Text? then Some(CompareText(a.text, b.text))
    else if (a.Number? && b.Number?) || (a.Instant? && b.Instant?) then Some(Compare(a, b))
    else None
  }

  predicate SqlEqual(a: Value, b: Value) {
    if SqlOrder(a, b).Some? then SqlOrder(a, b) == Some(Equal) else a == b
  }

  function SqlCompare(a: Value, b: Value, comparison: Comparison): Truth {
    if a == Nil || b == Nil then Unknown
    else
      match comparison
      case IsEqual => ToTruth(SqlEqual(a, b))
      case IsNotEqual => ToTruth(!SqlEqual(a, b))
      case IsLess => if SqlOrder(a, b).None? then Unknown else ToTruth(SqlOrder(a, b) == Some(Less))
      case IsAtMost => if SqlOrder(a, b).None? then Unknown else ToTruth(SqlOrder(a, b) != Some(Greater))
      case IsGreater => if SqlOrder(a, b).None? then Unknown else ToTruth(SqlOrder(a, b) == Some(Greater))
      case IsAtLeast => if SqlOrder(a, b).None? then Unknown else ToTruth(SqlOrder(a, b) != Some(Less))
  }

  /** LIKE with ESCAPE '\': percent takes any text, underscore any character. */
  predicate LikeMatch(pattern: string, text: string)
    decreases |pattern| + |text|
  {
    if pattern == "" then text == ""
    else if pattern[0] == '%' then LikeMatch(pattern[1..], text) || (text != "" && LikeMatch(pattern, text[1..]))
    else if text == "" then false
    else if pattern[0] == '_' then LikeMatch(pattern[1..], text[1..])
    else if pattern[0] == '\\' then |pattern| >= 2 && text[0] == pattern[1] && LikeMatch(pattern[2..], text[1..])
    else text[0] == pattern[0] && LikeMatch(pattern[1..], text[1..])
  }

  function ColumnValue(column: Column, row: Record): Value {
    var stored := Get(row, column.name);
    if stored == Nil || !column.lowered then stored else Text(ToLower(Printed(stored)))
  }

  function Argument(args: seq<Value>, position: nat): Value {
    if 1 <= position <= |args| then args[position - 1] else Nil
  }

  function ArgumentsAt(args: seq<Value>, positions: seq<nat>): (values: seq<Value>)
    ensures |values| == |positions| && forall i | 0 <= i < |values| :: values[i] == Argument(args, positions[i])
  {
    seq(|positions|, i requires 0 <= i < |positions| => Argument(args, positions[i]))
  }

  function SqlIn(v: Value, items: seq<Value>, negated: bool): Truth {
    if v == Nil then Unknown
    else if exists item | item in items :: item != Nil && SqlEqual(v, item) then ToTruth(!negated)
    else if Nil in items then Unknown
    else ToTruth(negated)
  }

  function Eval(expr: Expr, row: Record, args: seq<Value>): Truth {
    match expr
    case IsNull(column) => ToTruth(ColumnValue(column, row) == Nil)
    case IsNotNull(column) => ToTruth(ColumnValue(column, row) != Nil)
    case Compares(column, comparison, position) => SqlCompare(ColumnValue(column, row), Argument(args, position), comparison)
    case Like(column, position) =>
      var v, pattern := ColumnValue(column, row), Argument(args, position);
      if v.Text? && pattern.Text? then ToTruth(LikeMatch(pattern.text, v.text)) else Unknown
    case InList(column, positions, negated) => SqlIn(ColumnValue(column, row), ArgumentsAt(args, positions), negated)
    case Always(holds) => ToTruth(holds)
  }

  /** A row is selected when the whole condition is True. */
  predicate Selects(clause: WhereClause, row: Record, args: seq<Value>) {
    && (forall e | e in clause.ands :: Eval(e, row, args) == True)
    && (clause.ors != [] ==> exists e | e in clause.ors :: Eval(e, row, args) == True)
  }

  // ---------------------------------------------------------------- compilation

  function EscapeChar(c: char): string {
    if c == '\\' || c == '%' || c == '_' then ['\\', c] else [c]
  }

  function Escape(text: string): string {
    if text == "" then "" else EscapeChar(text[0]) + Escape(text[1..])
  }

  function Pattern(operator: Operator, text: string): string {
    (if operator == Contains || operator == EndsWith then "%" else "")
    + Escape(text)
    + (if operator == Contains || operator == StartsWith then "%" else "")
  }

  function Folded(v: Value, mode: Mode): Value {
    if mode == Insensitive then Text(ToLower(Printed(v))) else v
  }

  function ComparisonOf(operator: Operator): Comparison {
    match operator
    case NE => IsNotEqual
    case LT => IsLess
    case LTE => IsAtMost
    case GT => IsGreater
    case GTE => IsAtLeast
    case _ => IsEqual
  }

  predicate TextOperator(operator: Operator) {
    operator == Contains || operator == StartsWith || operator == EndsWith
  }

  function FoldItems(items: seq<Value>, mode: Mode): (r: seq<Value>)
    ensures |r| == |items| && forall i | 0 <= i < |r| :: r[i] == Folded(items[i], mode)
  {
    seq(|items|, i requires 0 <= i < |items| => Folded(items[i], mode))
  }

  function Positions(from: nat, count: nat): (r: seq<nat>)
    ensures |r| == count && forall i | 0 <= i < count :: r[i] == from + 1 + i
  {
    seq(count, i => from + 1 + i)
  }

  /** One condition: its SQL and the arguments so far with its own appended. */
  function ConditionOf(c: Where, args: seq<Value>): Result<(Expr, seq<Value>), Error> {
    var column := Column(c.field, c.mode == Insensitive);
    if c.value == Nil then
      if c.operator == EQ then Success((IsNull(column), args))
      else if c.operator == NE then Success((IsNotNull(column), args))
      else Failure(NilOperand)
    else if TextOperator(c.operator) then
      if !c.value.Text? then Failure(NotText)
      else Success((Like(column, |args| + 1), args + [Folded(Text(Pattern(c.operator, c.value.text)), c.mode)]))
    else if ListOperator(c.operator) then
      if !c.value.Items? then Failure(NotList)
      else if c.value.items == [] then Success((Always(c.operator == NotIn), args))
      else Success((InList(column, Positions(|args|, |c.value.items|), c.operator == NotIn), args + FoldItems(c.value.items, c.mode)))
    else Success((Compares(column, ComparisonOf(c.operator), |args| + 1), args + [Folded(c.value, c.mode)]))
  }

  /** The arguments of a list, each with its own placeholder. */
  method ListArguments(items: seq<Value>, mode: Mode, args: seq<Value>) returns (next: seq<Value>, positions: seq<nat>)
    ensures next == args + FoldItems(items, mode) && positions == Positions(|args|, |items|)
  {
    next, positions := args, [];
    for index := 0 to |items|
      invariant next == args + FoldItems(items, mode)[..index]
      invariant positions == Positions(|args|, |items|)[..index]
    {
      next := next + [Folded(items[index], mode)];
      positions := positions + [|next|];
    }
    assert FoldItems(items, mode)[..|items|] == FoldItems(items, mode);
    assert Positions(|args|, |items|)[..|items|] == Positions(|args|, |items|);
  }

  method Condition(c: Where, args: seq<Value>) returns (result: Result<(Expr, seq<Value>), Error>)
    ensures result == ConditionOf(c, args)
    ensures result.Success? <==> Fits(c)
  {
    FitsIff(c, args);
    var column := Column(c.field, c.mode == Insensitive);
    if c.value == Nil {
      if c.operator == EQ {
        return Success((IsNull(column), args));
      }
      if c.operator == NE {
        return Success((IsNotNull(column), args));
      }
      return Failure(NilOperand);
    }
    if TextOperator(c.operator) {
      if !c.value.Text? {
        return Failure(NotText);
      }
      var value := Folded(Text(Pattern(c.operator, c.value.text)), c.mode);
      return Success((Like(column, |args| + 1), args + [value]));
    }
    if ListOperator(c.operator) {
      if !c.value.Items? {
        return Failure(NotList);
      }
      var items := c.value.items;
      if |items| == 0 {
        return Success((Always(c.operator == NotIn), args));
      }
      var next, positions := ListArguments(items, c.mode, args);
      return Success((InList(column, positions, c.operator == NotIn), next));
    }
    return Success((Compares(column, ComparisonOf(c.operator), |args| + 1), args + [Folded(c.value, c.mode)]));
  }

  /** The compiled conditions of a list, AND and OR conditions apart. */
  function Compiled(fields: set<string>, where_: seq<Where>): Result<(WhereClause, seq<Value>), Error> {
    if where_ == [] then Success((WhereClause([], []), []))
    else
      var n := |where_| - 1;
      var (clause, args) :- Compiled(fields, where_[..n]);
      if where_[n].field !in fields then Failure(UnknownField(where_[n].field))
      else
        var (part, next) :- ConditionOf(where_[n], args);
        Success((if where_[n].connector == Or then clause.(ors := clause.ors + [part])
                 else clause.(ands := clause.ands + [part]), next))
  }

  // ---------------------------------------------------------------- what compiles

  /** Nil is only tested for equality, the three text operators take text, membership takes a
      list, and a comparison takes any value. */
  predicate Fits(c: Where) {
    match c.operator
    case EQ => true
    case NE => true
    case Contains => c.value.Text?
    case StartsWith => c.value.Text?
    case EndsWith => c.value.Text?
    case In => c.value.Items?
    case NotIn => c.value.Items?
    case LT => c.value != Nil
    case LTE => c.value != Nil
    case GT => c.value != Nil
    case GTE => c.value != Nil
  }

  predicate Compilable(fields: set<string>, c: Where) {
    c.field in fields && Fits(c)
  }

  /** What is wrong with a condition that does not compile. */
  predicate Explains(error: Error, fields: set<string>, c: Where) {
    match error
    case UnknownField(field) => field == c.field && c.field !in fields
    case NilOperand => c.field in fields && c.value == Nil && c.operator != EQ && c.operator != NE
    case NotText => c.field in fields && c.value != Nil && !c.value.Text? && c.operator in {Contains, StartsWith, EndsWith}
    case NotList => c.field in fields && c.value != Nil && !c.value.Items? && c.operator in {In, NotIn}
    case InvalidWhere => false
  }

  lemma FitsIff(c: Where, args: seq<Value>)
    ensures ConditionOf(c, args).Success? <==> Fits(c)
  {
  }

  lemma Explained(fields: set<string>, c: Where, args: seq<Value>)
    ensures c.field in fields && ConditionOf(c, args).Failure? ==> Explains(ConditionOf(c, args).error, fields, c)
  {
  }

  lemma CompilableMore(fields: set<string>, where_: seq<Where>, n: nat)
    requires |where_| == n + 1
    ensures (forall c | c in where_ :: Compilable(fields, c))
       <==> (forall c | c in where_[..n] :: Compilable(fields, c)) && Compilable(fields, where_[n])
  {
    assert where_ == where_[..n] + [where_[n]];
  }

  /** A list compiles exactly when every condition names a known field and has an operand that
      fits its operator. */
  lemma {:induction false} CompilesIff(fields: set<string>, where_: seq<Where>)
    ensures Compiled(fields, where_).Success? <==> forall c | c in where_ :: Compilable(fields, c)
  {
    if where_ != [] {
      var n := |where_| - 1;
      CompilesIff(fields, where_[..n]);
      CompilableMore(fields, where_, n);
      if Compiled(fields, where_[..n]).Success? {
        FitsIff(where_[n], Compiled(fields, where_[..n]).value.1);
      }
    }
  }

  /** Otherwise the error is that of the first condition that does not. */
  lemma FirstErrorIsReported(fields: set<string>, where_: seq<Where>, i: nat)
    requires i < |where_| && !Compilable(fields, where_[i]) && forall k | 0 <= k < i :: Compilable(fields, where_[k])
    ensures Compiled(fields, where_).Failure? && Explains(Compiled(fields, where_).error, fields, where_[i])
  {
    CompilesIff(fields, where_[..i]);
    CompiledStep(fields, where_, i);
    var args := Compiled(fields, where_[..i]).value.1;
    FitsIff(where_[i], args);
    Explained(fields, where_[i], args);
    PrefixFails(fields, where_, i + 1);
  }

  method CompileWhere(fields: set<string>, where_: seq<Where>, allowEmpty: bool)
    returns (result: Result<(WhereClause, seq<Value>), Error>)
    ensures result == if !ValidWhere(where_, allowEmpty) then Failure(InvalidWhere) else Compiled(fields, where_)
    ensures result.Success? <==> ValidWhere(where_, allowEmpty) && forall c | c in where_ :: Compilable(fields, c)
  {
    CompilesIff(fields, where_);
    if !ValidWhere(where_, allowEmpty) {
      return Failure(InvalidWhere);
    }
    var ands: seq<Expr>, ors: seq<Expr>, args: seq<Value> := [], [], [];
    var i := 0;
    while i < |where_|
      invariant 0 <= i <= |where_|
      invariant Compiled(fields, where_[..i]) == Success((WhereClause(ands, ors), args))
    {
      CompiledStep(fields, where_, i);
      var condition := where_[i];
      if condition.field !in fields {
        PrefixFails(fields, where_, i + 1);
        return Failure(UnknownField(condition.field));
      }
      var compiled := Condition(condition, args);
      if compiled.Failure? {
        PrefixFails(fields, where_, i + 1);
        return Failure(compiled.error);
      }
      var (part, next) := compiled.value;
      args := next;
      if condition.connector == Or {
        ors := ors + [part];
      } else {
        ands := ands + [part];
      }
      i := i + 1;
    }
    assert where_[..i] == where_;
    return Success((WhereClause(ands, ors), args));
  }

  lemma CompiledStep(fields: set<string>, where_: seq<Where>, i: nat)
    requires i < |where_|
    ensures where_[..i + 1][..i] == where_[..i] && where_[..i + 1][i] == where_[i]
  {
  }

  lemma {:induction false} PrefixFails(fields: set<string>, where_: seq<Where>, i: nat)
    requires i <= |where_| && Compiled(fields, where_[..i]).Failure?
    ensures Compiled(fields, where_) == Compiled(fields, where_[..i])
    decreases |where_| - i
  {
    if i == |where_| {
      assert where_[..i] == where_;
    } else {
      CompiledStep(fields, where_, i);
      PrefixFails(fields, where_, i + 1);
    }
  }

  // ---------------------------------------------------------------- placeholders

  predicate Within(expr: Expr, count: nat) {
    match expr
    case Compares(_, _, position) => 1 <= position <= count
    case Like(_, position) => 1 <= position <= count
    case InList(_, positions, _) => forall p | p in positions :: 1 <= p <= count
    case _ => true
  }

  predicate ClauseWithin(clause: WhereClause, count: nat) {
    forall e | e in clause.ands + clause.ors :: Within(e, count)
  }

  lemma {:induction false} CompiledWithin(fields: set<string>, where_: seq<Where>)
    requires Compiled(fields, where_).Success?
    ensures ClauseWithin(Compiled(fields, where_).value.0, |Compiled(fields, where_).value.1|)
  {
    if where_ != [] {
      var n := |where_| - 1;
      CompiledWithin(fields, where_[..n]);
      var (clause, args) := Compiled(fields, where_[..n]).value;
      PartWithin(where_[n], args);
      var next := ConditionOf(where_[n], args).value.1;
      forall e | e in clause.ands + clause.ors
        ensures Within(e, |next|)
      {
        WithinMore(e, |args|, |next|);
      }
    }
  }

  lemma WithinMore(expr: Expr, count: nat, more: nat)
    requires Within(expr, count) && count <= more
    ensures Within(expr, more)
  {
  }

  lemma PartWithin(c: Where, args: seq<Value>)
    requires ConditionOf(c, args).Success?
    ensures var (part, next) := ConditionOf(c, args).value; |args| <= |next| && Within(part, |next|)
  {
  }

  lemma EvalStable(expr: Expr, row: Record, args: seq<Value>, more: seq<Value>)
    requires Within(expr, |args|)
    ensures Eval(expr, row, args + more) == Eval(expr, row, args)
  {
    if expr.InList? {
      assert ArgumentsAt(args + more, expr.positions) == ArgumentsAt(args, expr.positions) by {
        forall i | 0 <= i < |expr.positions|
          ensures Argument(args + more, expr.positions[i]) == Argument(args, expr.positions[i])
        {
          assert expr.positions[i] in expr.positions;
        }
      }
    }
  }

  /** Arguments appended later, for limits or assignments, never change what a compiled
      predicate selects. */
  lemma LaterArgumentsDoNotMatter(fields: set<string>, where_: seq<Where>, row: Record, more: seq<Value>)
    requires Compiled(fields, where_).Success?
    ensures var (clause, args) := Compiled(fields, where_).value;
            Selects(clause, row, args + more) == Selects(clause, row, args)
  {
    var (clause, args) := Compiled(fields, where_).value;
    CompiledWithin(fields, where_);
    forall e | e in clause.ands + clause.ors
      ensures Eval(e, row, args + more) == Eval(e, row, args)
    {
      EvalStable(e, row, args, more);
    }
    assert forall e | e in clause.ands :: e in clause.ands + clause.ors;
    assert forall e | e in clause.ors :: e in clause.ands + clause.ors;
  }

  // ---------------------------------------------------------------- LIKE patterns

  lemma LikeOne(c: char, rest: string, text: string)
    ensures LikeMatch(EscapeChar(c) + rest, text) <==> text != "" && text[0] == c && LikeMatch(rest, text[1..])
  {
    var pattern := EscapeChar(c) + rest;
    assert pattern[|EscapeChar(c)|..] == rest;
  }

  lemma {:induction false} LikeLiteral(literal: string, rest: string, text: string)
    ensures LikeMatch(Escape(literal) + rest, text) <==> literal <= text && LikeMatch(rest, text[|literal|..])
  {
    if literal == "" {
      assert Escape(literal) + rest == rest && text[0..] == text;
    } else {
      assert Escape(literal) + rest == EscapeChar(literal[0]) + (Escape(literal[1..]) + rest);
      LikeOne(literal[0], Escape(literal[1..]) + rest, text);
      if text != "" {
        LikeLiteral(literal[1..], rest, text[1..]);
        PrefixStep(literal, text);
      }
    }
  }

  lemma PrefixStep(literal: string, text: string)
    requires literal != "" && text != ""
    ensures literal <= text <==> literal[0] == text[0] && literal[1..] <= text[1..]
    ensures literal <= text ==> text[1..][|literal| - 1..] == text[|literal|..]
  {
    if literal[0] == text[0] && literal[1..] <= text[1..] {
      assert literal == [literal[0]] + literal[1..];
      assert text == [text[0]] + text[1..];
    }
  }

  lemma {:induction false} LikeAny(text: string)
    ensures LikeMatch("%", text)
  {
    if text != "" { LikeAny(text[1..]); }
  }

  predicate MatchesFrom(pattern: string, text: string, i: nat)
    requires i <= |text|
  {
    LikeMatch(pattern, text[i..])
  }

  predicate MatchesLater(pattern: string, text: string) {
    exists i | 0 <= i <= |text| :: MatchesFrom(pattern, text, i)
  }

  lemma LaterStep(pattern: string, text: string)
    requires text != ""
    ensures MatchesLater(pattern, text) <==> LikeMatch(pattern, text) || MatchesLater(pattern, text[1..])
  {
    assert text[0..] == text;
    if LikeMatch(pattern, text) { assert MatchesFrom(pattern, text, 0); }
    if MatchesLater(pattern, text[1..]) {
      var i :| 0 <= i <= |text[1..]| && MatchesFrom(pattern, text[1..], i);
      assert text[1..][i..] == text[i + 1..];
      assert MatchesFrom(pattern, text, i + 1);
    }
    if MatchesLater(pattern, text) && !LikeMatch(pattern, text) {
      var i :| 0 <= i <= |text| && MatchesFrom(pattern, text, i);
      assert text[1..][i - 1..] == text[i..];
      assert MatchesFrom(pattern, text[1..], i - 1);
    }
  }

  lemma {:induction false} LikeSkips(pattern: string, text: string)
    ensures LikeMatch("%" + pattern, text) <==> MatchesLater(pattern, text)
  {
    assert ("%" + pattern)[1..] == pattern;
    if text == "" {
      assert text[0..] == text;
      assert MatchesFrom(pattern, text, 0) <==> LikeMatch(pattern, text);
    } else {
      LikeSkips(pattern, text[1..]);
      LaterStep(pattern, text);
    }
  }

  /** Escaped patterns are exactly the prefix, suffix and substring tests. */
  lemma PatternIsExact(operator: Operator, wanted: string, text: string)
    requires TextOperator(operator)
    ensures LikeMatch(Pattern(operator, wanted), text) <==>
              match operator
              case StartsWith => HasPrefix(text, wanted)
              case EndsWith => HasSuffix(text, wanted)
              case _ => HasSubstring(text, wanted)
  {
    var escaped := Escape(wanted);
    if operator == StartsWith {
      assert Pattern(operator, wanted) == escaped + "%";
      LikeLiteral(wanted, "%", text);
      if wanted <= text { LikeAny(text[|wanted|..]); }
    } else if operator == EndsWith {
      assert Pattern(operator, wanted) == "%" + escaped;
      LikeSkips(escaped, text);
      SuffixSplit(wanted, text);
    } else {
      assert Pattern(operator, wanted) == "%" + (escaped + "%");
      LikeSkips(escaped + "%", text);
      forall i: nat | i <= |text|
        ensures MatchesFrom(escaped + "%", text, i) <==> HasPrefix(text[i..], wanted)
      {
        LikeLiteral(wanted, "%", text[i..]);
        if wanted <= text[i..] { LikeAny(text[i..][|wanted|..]); }
      }
    }
  }

  lemma SuffixSplit(wanted: string, text: string)
    ensures MatchesLater(Escape(wanted), text) <==> HasSuffix(text, wanted)
  {
    forall i: nat | i <= |text|
      ensures MatchesFrom(Escape(wanted), text, i) <==> text[i..] == wanted
    {
      LikeLiteral(wanted, "", text[i..]);
      assert Escape(wanted) + "" == Escape(wanted);
    }
    if HasSuffix(text, wanted) { assert MatchesFrom(Escape(wanted), text, |text| - |wanted|); }
  }

  // ---------------------------------------------------------------- meaning is preserved

  /** Where SQL and the in-memory adapter select alike. On a NULL column it depends on the
      operator; a column with a value needs operands of its own type, text if the condition
      ignores case, and a list that ignores case must not hold the value, since the in-memory
      adapter then finds nothing in any list. */
  predicate Agrees(stored: Value, c: Where) {
    if c.value == Nil then c.mode == Sensitive || stored == Nil || ToLower(Printed(stored)) != Printed(Nil)
    else if stored == Nil then NullAgrees(c)
    else if c.mode == Insensitive then stored.Text? && (ListOperator(c.operator) ==> NotListed(stored.text, c.value))
    else if TextOperator(c.operator) then stored.Text?
    else if ListOperator(c.operator) then
      c.value.Items? ==> forall item | item in c.value.items :: item != Nil && SameForm(stored, item)
    else if c.operator == EQ || c.operator == NE then SameForm(stored, c.value)
    else SqlOrder(stored, c.value).Some?
  }

  predicate NotListed(text: string, list: Value) {
    list.Items? ==> forall item | item in list.items :: ToLower(Printed(item)) != ToLower(text)
  }

  /** A NULL column against an operand: SQL selects nothing, except by an empty NOT IN, while the
      in-memory adapter compares what nil prints as. */
  predicate NullAgrees(c: Where) {
    var none, folds, wanted := Printed(Nil), c.mode == Insensitive, Printed(Folded(c.value, c.mode));
    match c.operator
    case EQ => folds ==> wanted != none
    case NE => folds && wanted == none
    case LT => CompareText(none, wanted) != Less
    case LTE => CompareText(none, wanted) == Greater
    case GT => CompareText(none, wanted) != Greater
    case GTE => CompareText(none, wanted) == Less
    case Contains => !HasSubstring(none, wanted)
    case StartsWith => !HasPrefix(none, wanted)
    case EndsWith => !HasSuffix(none, wanted)
    case In => c.value.Items? && !folds ==> Nil !in c.value.items
    case NotIn => c.value.Items? && (c.value.items == [] || (!folds && Nil in c.value.items))
  }

  /** Values that SQL calls equal are represented alike. */
  predicate SameForm(a: Value, b: Value) {
    SqlEqual(a, b) ==> a == b
  }

  lemma {:induction false} CompareTextSame(a: string, b: string)
    ensures CompareText(a, b) == Equal <==> a == b
  {
    if a != "" && b != "" { CompareTextSame(a[1..], b[1..]); }
  }

  lemma EqualIsSqlEqual(a: Value, b: Value)
    ensures a == b ==> SqlEqual(a, b)
  {
    if a.Text? { CompareTextSame(a.text, a.text); }
  }

  /** What LIKE and the in-memory test see of a stored text. */
  function FoldedText(text: string, mode: Mode): string {
    if mode == Insensitive then ToLower(text) else text
  }

  lemma ToLowerAppend(a: string, b: string)
    ensures ToLower(a + b) == ToLower(a) + ToLower(b)
  {
  }

  lemma LowerEscapeChar(c: char)
    ensures ToLower(EscapeChar(c)) == EscapeChar(LowerChar(c))
  {
  }

  /** Lowering a text commutes with escaping it. */
  lemma {:induction false} LowerEscape(text: string)
    ensures ToLower(Escape(text)) == Escape(ToLower(text))
  {
    if text != "" {
      LowerEscape(text[1..]);
      LowerEscapeChar(text[0]);
      ToLowerAppend(EscapeChar(text[0]), Escape(text[1..]));
      assert ToLower(text)[1..] == ToLower(text[1..]);
    }
  }

  lemma LowerPattern(operator: Operator, text: string)
    ensures ToLower(Pattern(operator, text)) == Pattern(operator, ToLower(text))
  {
    var before, after := if operator == Contains || operator == EndsWith then "%" else "",
                         if operator == Contains || operator == StartsWith then "%" else "";
    LowerEscape(text);
    ToLowerAppend(before + Escape(text), after);
    ToLowerAppend(before, Escape(text));
    assert ToLower(before) == before && ToLower(after) == after;
  }

  lemma TextIsExact(stored: Value, c: Where)
    requires c.value.Text? && stored.Text? && TextOperator(c.operator)
    ensures LikeMatch(FoldedText(Pattern(c.operator, c.value.text), c.mode), FoldedText(stored.text, c.mode)) == Match(stored, c)
  {
    if c.mode == Insensitive { LowerPattern(c.operator, c.value.text); }
    PatternIsExact(c.operator, FoldedText(c.value.text, c.mode), FoldedText(stored.text, c.mode));
  }

  lemma InIsExact(stored: Value, c: Where)
    requires c.value != Nil && stored != Nil && c.mode == Sensitive && Agrees(stored, c) && ListOperator(c.operator) && c.value.Items?
    ensures SqlIn(stored, c.value.items, c.operator == NotIn) == ToTruth(Match(stored, c))
  {
    if stored in c.value.items { EqualIsSqlEqual(stored, stored); }
  }

  lemma FoldedListed(text: string, items: seq<Value>)
    ensures Text(ToLower(text)) in FoldItems(items, Insensitive) <==> !NotListed(text, Items(items))
  {
    var folded, wanted := FoldItems(items, Insensitive), ToLower(text);
    if Text(wanted) in folded {
      var i :| 0 <= i < |folded| && folded[i] == Text(wanted);
      assert items[i] in items;
    }
    if item :| item in items && ToLower(Printed(item)) == wanted {
      var i :| 0 <= i < |items| && items[i] == item;
      assert folded[i] == Text(wanted);
    }
  }

  lemma SqlInTexts(text: string, list: seq<Value>, negated: bool)
    requires forall item | item in list :: item.Text?
    ensures SqlIn(Text(text), list, negated) == ToTruth((Text(text) in list) != negated)
  {
    forall item | item in list
      ensures SqlEqual(Text(text), item) <==> item == Text(text)
    {
      CompareTextSame(text, item.text);
    }
  }

  /** The in-memory adapter folds the whole list to one text, so it finds nothing in it. */
  lemma FoldedInIsExact(stored: Value, c: Where)
    requires stored.Text? && c.mode == Insensitive && ListOperator(c.operator) && c.value.Items?
    ensures var sql := SqlIn(Text(ToLower(stored.text)), FoldItems(c.value.items, c.mode), c.operator == NotIn);
            && sql != Unknown
            && (sql == ToTruth(Match(stored, c)) <==> NotListed(stored.text, c.value))
  {
    FoldedListed(stored.text, c.value.items);
    SqlInTexts(ToLower(stored.text), FoldItems(c.value.items, c.mode), c.operator == NotIn);
    assert Match(stored, c) == (c.operator == NotIn);
  }

  lemma ComparisonIsExact(stored: Value, c: Where)
    requires c.value != Nil && stored != Nil && Agrees(stored, c) && !TextOperator(c.operator) && !ListOperator(c.operator)
    ensures SqlCompare(Folded(stored, c.mode), Folded(c.value, c.mode), ComparisonOf(c.operator)) == ToTruth(Match(stored, c))
  {
    EqualIsSqlEqual(Folded(stored, c.mode), Folded(c.value, c.mode));
    CompareTextSame(Printed(Folded(stored, c.mode)), Printed(Folded(c.value, c.mode)));
  }

  /** Nil prints as "<nil>", which has no capitals. */
  lemma LowerNone()
    ensures ToLower(Printed(Nil)) == Printed(Nil)
  {
    var none := Printed(Nil);
    assert forall i | 0 <= i < |none| :: LowerChar(none[i]) == none[i];
    assert ToLower(none) == none;
  }

  lemma NilIsExact(stored: Value, c: Where)
    requires c.value == Nil && (c.operator == EQ || c.operator == NE)
    ensures ToTruth(Match(stored, c)) == ToTruth((stored == Nil) == (c.operator == EQ)) <==> Agrees(stored, c)
  {
    LowerNone();
  }

  /** What the placeholder of a condition stands for. */
  lemma ArgumentIs(v: Value, args: seq<Value>)
    ensures Argument(args + [v], |args| + 1) == v
  {
  }

  lemma ArgumentsAre(items: seq<Value>, args: seq<Value>)
    ensures ArgumentsAt(args + items, Positions(|args|, |items|)) == items
  {
    var values := ArgumentsAt(args + items, Positions(|args|, |items|));
    forall i | 0 <= i < |items|
      ensures values[i] == items[i]
    {
      assert (args + items)[|args| + i] == items[i];
    }
  }

  lemma FoldNothing(items: seq<Value>)
    ensures FoldItems(items, Sensitive) == items
  {
  }

  lemma FoldedColumn(c: Where, row: Record)
    requires Get(row, c.field) != Nil
    ensures ColumnValue(Column(c.field, c.mode == Insensitive), row) == Folded(Get(row, c.field), c.mode)
  {
  }

  lemma ListCompiles(c: Where, args: seq<Value>)
    requires ConditionOf(c, args).Success? && ListOperator(c.operator) && c.value != Nil
    ensures c.value.Items?
    ensures ConditionOf(c, args).value
         == if c.value.items == [] then (Always(c.operator == NotIn), args)
            else (InList(Column(c.field, c.mode == Insensitive), Positions(|args|, |c.value.items|), c.operator == NotIn),
                  args + FoldItems(c.value.items, c.mode))
  {
  }

  /** What SQL makes of a list on a column with a value. */
  lemma ListEvaluates(c: Where, args: seq<Value>, row: Record)
    requires ConditionOf(c, args).Success? && ListOperator(c.operator) && c.value != Nil && Get(row, c.field) != Nil
    ensures c.value.Items?
    ensures var (expr, next) := ConditionOf(c, args).value;
            Eval(expr, row, next) == SqlIn(Folded(Get(row, c.field), c.mode), FoldItems(c.value.items, c.mode), c.operator == NotIn)
  {
    ListCompiles(c, args);
    if c.value.items == [] {
      assert FoldItems(c.value.items, c.mode) == [];
    } else {
      FoldedColumn(c, row);
      ListHolds(Column(c.field, c.mode == Insensitive), FoldItems(c.value.items, c.mode), c.operator == NotIn, args, row);
    }
  }

  lemma ListHolds(column: Column, items: seq<Value>, negated: bool, args: seq<Value>, row: Record)
    ensures Eval(InList(column, Positions(|args|, |items|), negated), row, args + items) == SqlIn(ColumnValue(column, row), items, negated)
  {
    ArgumentsAre(items, args);
    InListIs(column, Positions(|args|, |items|), negated, row, args + items);
  }

  lemma InListIs(column: Column, positions: seq<nat>, negated: bool, row: Record, args: seq<Value>)
    ensures Eval(InList(column, positions, negated), row, args) == SqlIn(ColumnValue(column, row), ArgumentsAt(args, positions), negated)
  {
  }

  predicate Selected(c: Where, args: seq<Value>, row: Record)
    requires ConditionOf(c, args).Success?
  {
    var (expr, next) := ConditionOf(c, args).value;
    Eval(expr, row, next) == True
  }

  lemma ConditionIsExact(c: Where, args: seq<Value>, row: Record)
    requires ConditionOf(c, args).Success? && Agrees(Get(row, c.field), c)
    ensures Selected(c, args, row) == MatchesAt(row, c)
    ensures var (expr, next) := ConditionOf(c, args).value;
            Get(row, c.field) != Nil ==> Eval(expr, row, next) == ToTruth(MatchesAt(row, c))
  {
    var stored := Get(row, c.field);
    if c.value == Nil {
      NilIsExact(stored, c);
    } else if stored == Nil {
      NullIsExact(c, args, row);
    } else {
      ValueIsExact(c, args, row);
    }
  }

  lemma ValueIsExact(c: Where, args: seq<Value>, row: Record)
    requires ConditionOf(c, args).Success? && Agrees(Get(row, c.field), c) && c.value != Nil && Get(row, c.field) != Nil
    ensures var (expr, next) := ConditionOf(c, args).value;
            Eval(expr, row, next) == ToTruth(MatchesAt(row, c))
  {
    var stored := Get(row, c.field);
    FoldedColumn(c, row);
    if TextOperator(c.operator) {
      TextIsExact(stored, c);
      ArgumentIs(Folded(Text(Pattern(c.operator, c.value.text)), c.mode), args);
    } else if ListOperator(c.operator) {
      ListEvaluates(c, args, row);
      FoldNothing(c.value.items);
      if c.mode == Sensitive { InIsExact(stored, c); } else { FoldedInIsExact(stored, c); }
    } else {
      ComparisonIsExact(stored, c);
      ArgumentIs(Folded(c.value, c.mode), args);
    }
  }

  predicate AllAgree(row: Record, where_: seq<Where>) {
    forall c | c in where_ :: Agrees(Get(row, c.field), c)
  }

  /** The compiled WHERE, evaluated with the returned arguments, selects exactly the rows that
      the in-memory adapter matches. */
  lemma {:induction false} CompilationPreservesMeaning(fields: set<string>, where_: seq<Where>, row: Record)
    requires Compiled(fields, where_).Success? && AllAgree(row, where_)
    ensures var (clause, args) := Compiled(fields, where_).value;
            Selects(clause, row, args) == Matches(row, where_)
  {
    PartsAreExact(fields, where_, row);
    var (clause, args) := Compiled(fields, where_).value;
    if clause.ors == [] {
      assert forall c | c in where_ :: c.connector == And;
    }
  }

  predicate AndsHold(row: Record, where_: seq<Where>) {
    forall c | c in where_ && c.connector == And :: MatchesAt(row, c)
  }

  predicate SomeOrHolds(row: Record, where_: seq<Where>) {
    exists c | c in where_ :: c.connector == Or && MatchesAt(row, c)
  }

  predicate AllTrue(parts: seq<Expr>, row: Record, args: seq<Value>) {
    forall e | e in parts :: Eval(e, row, args) == True
  }

  predicate SomeTrue(parts: seq<Expr>, row: Record, args: seq<Value>) {
    exists e | e in parts :: Eval(e, row, args) == True
  }

  lemma WhereMore(row: Record, init: seq<Where>, last: Where)
    ensures AndsHold(row, init + [last]) <==> AndsHold(row, init) && (last.connector == And ==> MatchesAt(row, last))
    ensures SomeOrHolds(row, init + [last]) <==> SomeOrHolds(row, init) || (last.connector == Or && MatchesAt(row, last))
  {
    assert forall c :: c in init + [last] <==> c in init || c == last;
  }

  lemma TrueMore(parts: seq<Expr>, part: Expr, row: Record, args: seq<Value>)
    ensures AllTrue(parts + [part], row, args) <==> AllTrue(parts, row, args) && Eval(part, row, args) == True
    ensures SomeTrue(parts + [part], row, args) <==> SomeTrue(parts, row, args) || Eval(part, row, args) == True
  {
    assert forall e :: e in parts + [part] <==> e in parts || e == part;
  }

  lemma {:induction false} PartsAreExact(fields: set<string>, where_: seq<Where>, row: Record)
    requires Compiled(fields, where_).Success? && AllAgree(row, where_)
    ensures var (clause, args) := Compiled(fields, where_).value;
            && (AllTrue(clause.ands, row, args) <==> AndsHold(row, where_))
            && (SomeTrue(clause.ors, row, args) <==> SomeOrHolds(row, where_))
            && (clause.ors == [] <==> forall c | c in where_ :: c.connector == And)
  {
    if where_ != [] {
      var n := |where_| - 1;
      var last, init := where_[n], where_[..n];
      assert where_ == init + [last];
      PartsAreExact(fields, init, row);
      var (clause, args) := Compiled(fields, init).value;
      var (part, next) := ConditionOf(last, args).value;
      ConditionIsExact(last, args, row);
      StillExact(fields, init, row, last);
      WhereMore(row, init, last);
      TrueMore(clause.ands, part, row, next);
      TrueMore(clause.ors, part, row, next);
    }
  }

  /** Compiling one more condition does not change what the parts before it evaluate to. */
  lemma StillExact(fields: set<string>, init: seq<Where>, row: Record, last: Where)
    requires Compiled(fields, init).Success?
    requires ConditionOf(last, Compiled(fields, init).value.1).Success?
    ensures var (clause, args) := Compiled(fields, init).value;
            var next := ConditionOf(last, args).value.1;
            && (AllTrue(clause.ands, row, next) <==> AllTrue(clause.ands, row, args))
            && (SomeTrue(clause.ors, row, next) <==> SomeTrue(clause.ors, row, args))
  {
    var (clause, args) := Compiled(fields, init).value;
    CompiledWithin(fields, init);
    ArgumentsGrow(last, args);
    var more := ConditionOf(last, args).value.1[|args|..];
    forall e | e in clause.ands + clause.ors
      ensures Eval(e, row, args + more) == Eval(e, row, args)
    {
      EvalStable(e, row, args, more);
    }
    assert forall e | e in clause.ands :: e in clause.ands + clause.ors;
    assert forall e | e in clause.ors :: e in clause.ands + clause.ors;
  }

  lemma ArgumentsGrow(c: Where, args: seq<Value>)
    requires ConditionOf(c, args).Success?
    ensures var next := ConditionOf(c, args).value.1; args <= next && next == args + next[|args|..]
  {
  }

  /** A NULL column against an operand: the two adapters select alike exactly as `NullAgrees`
      says. Equality to a value always agrees, inequality never does, and so on. */
  lemma NullIsExact(c: Where, args: seq<Value>, row: Record)
    requires ConditionOf(c, args).Success? && Get(row, c.field) == Nil && c.value != Nil
    ensures Selected(c, args, row) <==> c.operator == NotIn && c.value == Items([])
    ensures Selected(c, args, row) == MatchesAt(row, c) <==> NullAgrees(c)
  {
    NullSelects(c, args, row);
    if c.mode == Sensitive { NullMatches(c); } else { NullMatchesFolded(c); }
  }

  lemma NullSelects(c: Where, args: seq<Value>, row: Record)
    requires ConditionOf(c, args).Success? && Get(row, c.field) == Nil && c.value != Nil
    ensures Selected(c, args, row) <==> c.operator == NotIn && c.value == Items([])
  {
  }

  lemma NullMatches(c: Where)
    requires c.value != Nil && c.mode == Sensitive && (ListOperator(c.operator) ==> c.value.Items?)
    ensures NullAgrees(c) <==> Match(Nil, c) == (c.operator == NotIn && c.value == Items([]))
  {
  }

  lemma NullMatchesFolded(c: Where)
    requires c.value != Nil && c.mode == Insensitive && (ListOperator(c.operator) ==> c.value.Items?)
    ensures NullAgrees(c) <==> Match(Nil, c) == (c.operator == NotIn && c.value == Items([]))
  {
    LowerNone();
  }

  lemma FoldedListIsExact(c: Where, args: seq<Value>, row: Record)
    requires ConditionOf(c, args).Success? && c.mode == Insensitive
    requires Get(row, c.field).Text? && ListOperator(c.operator) && c.value != Nil
    ensures Selected(c, args, row) == MatchesAt(row, c) <==> NotListed(Get(row, c.field).text, c.value)
  {
    var stored := Get(row, c.field);
    ListEvaluates(c, args, row);
    FoldedInIsExact(stored, c);
  }

  /** Ignoring case on a text column, or against nil on any column, they select alike exactly
      as `Agrees` says. */
  lemma FoldedIsExact(c: Where, args: seq<Value>, row: Record)
    requires ConditionOf(c, args).Success? && c.mode == Insensitive
    requires c.value == Nil || Get(row, c.field).Text?
    ensures Selected(c, args, row) == MatchesAt(row, c) <==> Agrees(Get(row, c.field), c)
  {
    var stored := Get(row, c.field);
    if c.value == Nil {
      NilIsExact(stored, c);
    } else if ListOperator(c.operator) {
      FoldedListIsExact(c, args, row);
    } else {
      ConditionIsExact(c, args, row);
    }
  }

  /** An example where they differ: "status <> 'done'" on a row without a status. */
  lemma NotEqualDiffersOnNull()
    ensures var c := Where("status", NE, Text("done"), And, Sensitive);
            MatchesAt(map[], c) && !Selected(c, [], map[])
  {
  }

  // ---------------------------------------------------------------- assignments

  datatype Assignment = Assignment(field: string, position: nat)

  function Assigned(assignments: seq<Assignment>, args: seq<Value>, record: Record): Record {
    if assignments == [] then record
    else
      var n := |assignments| - 1;
      Assigned(assignments[..n], args, record)[assignments[n].field := Argument(args, assignments[n].position)]
  }

  /** The SET list: every field but the one called "id", one placeholder each. */
  method Assignments(fields: set<string>, update: Record, args: seq<Value>)
    returns (result: Result<(seq<Assignment>, seq<Value>), Error>)
    ensures result.Success? <==> update.Keys - {"id"} <= fields
    ensures result.Success? ==>
              var (assignments, next) := result.value;
              args <= next && forall record, more :: Assigned(assignments, next + more, record) == record + (update - {"id"})
  {
    var assignments: seq<Assignment>, next := [], args;
    var rest := update.Keys - {"id"};
    while rest != {}
      invariant rest <= update.Keys - {"id"}
      invariant update.Keys - {"id"} - rest <= fields
      invariant args <= next
      invariant forall a | a in assignments :: 1 <= a.position <= |next|
      invariant forall record :: Assigned(assignments, next, record) == record + (update - ({"id"} + rest))
    {
      var field :| field in rest;
      if field !in fields {
        return Failure(UnknownField(field));
      }
      AssignMore(assignments, next, update, {"id"} + rest, field);
      assert {"id"} + ({"id"} + rest - {field}) == {"id"} + (rest - {field});
      next := next + [update[field]];
      assignments := assignments + [Assignment(field, |next|)];
      rest := rest - {field};
    }
    assert {"id"} + rest == {"id"};
    forall record, more
      ensures Assigned(assignments, next + more, record) == record + (update - {"id"})
    {
      AssignedStable(assignments, next, more, record);
    }
    return Success((assignments, next));
  }

  lemma {:induction false} AssignedStable(assignments: seq<Assignment>, args: seq<Value>, more: seq<Value>, record: Record)
    requires forall a | a in assignments :: 1 <= a.position <= |args|
    ensures Assigned(assignments, args + more, record) == Assigned(assignments, args, record)
  {
    if assignments != [] {
      var n := |assignments| - 1;
      assert assignments[n] in assignments;
      AssignedStable(assignments[..n], args, more, record);
    }
  }

  lemma AssignMore(assignments: seq<Assignment>, args: seq<Value>, update: Record, left: set<string>, field: string)
    requires field in left && field in update && "id" in left && field != "id"
    requires forall a | a in assignments :: 1 <= a.position <= |args|
    requires forall record :: Assigned(assignments, args, record) == record + (update - left)
    ensures forall record :: Assigned(assignments + [Assignment(field, |args| + 1)], args + [update[field]], record)
                          == record + (update - ({"id"} + (left - {field})))
  {
    forall record
      ensures Assigned(assignments + [Assignment(field, |args| + 1)], args + [update[field]], record)
           == record + (update - ({"id"} + (left - {field})))
    {
      var more := assignments + [Assignment(field, |args| + 1)];
      assert more[..|assignments|] == assignments;
      AssignedStable(assignments, args, [update[field]], record);
      assert (record + (update - left))[field := update[field]] == record + (update - ({"id"} + (left - {field})));
    }
  }

  /** The SET list skips the column named "id", while the in-memory adapter skips the mapped
      id column. The two write the same row exactly when neither name carries a new value. */
  lemma AssignmentsMatchMemory(record: Record, update: Record, idField: string)
    ensures record + (update - {"id"}) == record + (update - {idField}) <==>
              idField == "id"
              || ((idField in update ==> idField in record && record[idField] == update[idField])
                  && ("id" in update ==> "id" in record && record["id"] == update["id"]))
  {
    var sql, memory := record + (update - {"id"}), record + (update - {idField});
    if idField != "id" {
      if idField in update {
        assert idField in sql && sql[idField] == update[idField];
        assert idField in memory <==> idField in record;
      }
      if "id" in update {
        assert "id" in memory && memory["id"] == update["id"];
        assert "id" in sql <==> "id" in record;
      }
    }
  }

  /** An example where they differ: the id field is stored as "key", and the update names a new
      value for it, which SQL writes and the in-memory adapter skips. */
  lemma MappedIdDiffers()
    ensures var record: Record, update: Record := map["key" := Text("a")], map["key" := Text("b")];
            && record + (update - {"id"}) == update
            && record + (update - {"key"}) == record
            && update != record
  {
    var key, id, a, b := "key", "id", "a", "b";
    var record: Record, update: Record := map[key := Text(a)], map[key := Text(b)];
    assert key != id && a[0] != b[0];
    assert update - {key} == map[] && update - {id} == update;
    assert record[key] != update[key];
  }
}
