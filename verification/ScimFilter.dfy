/**
 The SCIM filter subset (RFC 7644, section 3.4.2.2): equality clauses joined by "and".
 The scanner and the unescaper of the server are byte loops; here they are loops over
 characters, which is the same thing for valid UTF-8 text.
 */
module ScimFilter {
  import opened Wrappers
  import opened Strings

  datatype Clause = Clause(path: string, field: string, value: string)

  const MaxValueBytes := 512

  /** The supported paths, by lower-cased name, and the stored field each one reads. */
  function FilterField(path: string): Option<string> {
    match path
    case "id" => Some("id")
    case "username" => Some("email")
    case "emails.value" => Some("email")
    case "externalid" => Some("accountId")
    case _ => None
  }

  predicate EqualFold(s: string, lower: string) {
    ToLower(s) == lower
  }

  predicate AtSeparator(s: string) {
    |s| >= 5 && EqualFold(s[..5], " and ")
  }

  lemma SeparatorStart(s: string)
    ensures AtSeparator(s) ==> LowerChar(s[0]) == ' ' && LowerChar(s[1]) == 'a'
  {
    if AtSeparator(s) {
      var folded := ToLower(s[..5]);
      assert folded[0] == LowerChar(s[0]) && folded[1] == LowerChar(s[1]);
    }
  }

  // ---------------------------------------------------------------- splitting

  /** The clauses of the text still to read, given the clause text read so far. */
  function Scan(rest: string, clause: string, quoted: bool, escaped: bool): Option<seq<string>>
    decreases |rest|
  {
    if rest == "" then
      if quoted || escaped then None else Some([TrimSpace(clause)])
    else if escaped then
      Scan(rest[1..], clause + [rest[0]], quoted, false)
    else if rest[0] == '\\' && quoted then
      Scan(rest[1..], clause + [rest[0]], quoted, true)
    else if rest[0] == '\"' then
      Scan(rest[1..], clause + [rest[0]], !quoted, false)
    else if !quoted && AtSeparator(rest) then
      Prepend([TrimSpace(clause)], Scan(rest[5..], "", false, false))
    else
      Scan(rest[1..], clause + [rest[0]], quoted, false)
  }

  function SplitAnd(text: string): Option<seq<string>> {
    match Scan(text, "", false, false)
    case None => None
    case Some(clauses) => if "" in clauses then None else Some(clauses)
  }

  function Prepend(clauses: seq<string>, later: Option<seq<string>>): Option<seq<string>> {
    match later
    case None => None
    case Some(more) => Some(clauses + more)
  }

  lemma PrependNothing(later: Option<seq<string>>)
    ensures Prepend([], later) == later
  {
    if later.Some? { assert [] + later.value == later.value; }
  }

  lemma PrependMore(clauses: seq<string>, clause: string, later: Option<seq<string>>)
    ensures Prepend(clauses, Prepend([clause], later)) == Prepend(clauses + [clause], later)
  {
    if later.Some? { assert clauses + ([clause] + later.value) == clauses + [clause] + later.value; }
  }

  method SplitFilterAnd(text: string) returns (clauses: Option<seq<string>>)
    ensures clauses == SplitAnd(text)
  {
    var result: seq<string> := [];
    var start, index := 0, 0;
    var quoted, escaped := false, false;
    assert text[0..] == text && text[0..0] == "";
    PrependNothing(Scan(text, "", false, false));
    while index < |text|
      invariant 0 <= start <= index <= |text|
      invariant Scan(text, "", false, false)
             == Prepend(result, Scan(text[index..], text[start..index], quoted, escaped))
    {
      ghost var step := text[index..];
      assert step[1..] == text[index + 1..] && text[start..index] + [step[0]] == text[start..index + 1];
      assert AtSeparator(step) ==> step[..5] == text[index..index + 5];
      if escaped {
        escaped := false;
      } else if text[index] == '\\' && quoted {
        escaped := true;
      } else if text[index] == '\"' {
        quoted := !quoted;
      } else if !quoted && index + 5 <= |text| && EqualFold(text[index..index + 5], " and ") {
        assert step[..5] == text[index..index + 5] && step[5..] == text[index + 5..];
        assert text[index + 5..index + 5] == "";
        PrependMore(result, TrimSpace(text[start..index]), Scan(text[index + 5..], "", false, false));
        result := result + [TrimSpace(text[start..index])];
        start := index + 5;
        index := index + 4;
      }
      index := index + 1;
    }
    assert text[index..] == "" && text[start..index] == text[start..];
    if quoted || escaped {
      return None;
    }
    clauses := RequireNonEmpty(result + [TrimSpace(text[start..])]);
  }

  method RequireNonEmpty(items: seq<string>) returns (checked: Option<seq<string>>)
    ensures checked == if "" in items then None else Some(items)
  {
    for i := 0 to |items|
      invariant "" !in items[..i]
    {
      if items[i] == "" {
        return None;
      }
    }
    assert items[..|items|] == items;
    return Some(items);
  }

  // ---------------------------------------------------------------- one clause

  /** strings.Fields. */
  function Fields(s: string): seq<string>
    decreases |s|
  {
    if s == "" then []
    else if IsSpace(s[0]) then Fields(s[1..])
    else [s[..WordLength(s)]] + Fields(s[WordLength(s)..])
  }

  function WordLength(s: string): (n: nat)
    ensures n <= |s|
    ensures s != "" && !IsSpace(s[0]) ==> n > 0
  {
    if s == "" || IsSpace(s[0]) then 0 else 1 + WordLength(s[1..])
  }

  /** The value of a quoted text, or None when an escape, a quote or a control character
      is out of place. */
  function Unescape(text: string): Option<string> {
    if text == "" then Some("")
    else if text[0] == '\\' then
      if |text| >= 2 && (text[1] == '\"' || text[1] == '\\') then
        After([text[1]], Unescape(text[2..]))
      else None
    else if text[0] == '\"' || text[0] < ' ' then None
    else After([text[0]], Unescape(text[1..]))
  }

  /** The text between the quotes of a clause, with its path. */
  function Equality(text: string): Option<(string, string)> {
    var parts := Fields(text);
    if |parts| < 3 || !EqualFold(parts[1], "eq") || |parts[0]| > |text| then None else
    var afterPath := TrimSpace(text[|parts[0]|..]);
    if |afterPath| < 2 || !EqualFold(afterPath[..2], "eq") then None else
    var operand := TrimSpace(afterPath[2..]);
    if |operand| < 2 || operand[0] != '\"' || operand[|operand| - 1] != '\"' then None else
    Some((parts[0], operand[1..|operand| - 1]))
  }

  function ClauseOf(text: string): Option<(string, string)> {
    match Equality(text)
    case None => None
    case Some((path, quoted)) =>
      match Unescape(quoted)
      case None => None
      case Some(value) =>
        if value == "" || ByteLength(value) > MaxValueBytes then None else Some((path, value))
  }

  function After(read: string, rest: Option<string>): Option<string> {
    if rest.None? then None else Some(read + rest.value)
  }

  lemma AfterNothing(rest: Option<string>)
    ensures After("", rest) == rest
  {
    if rest.Some? { assert "" + rest.value == rest.value; }
  }

  lemma AfterMore(read: string, c: char, rest: Option<string>)
    ensures After(read, After([c], rest)) == After(read + [c], rest)
  {
    if rest.Some? { assert read + ([c] + rest.value) == read + [c] + rest.value; }
  }

  method ParseEquality(text: string) returns (clause: Option<(string, string)>)
    ensures clause == ClauseOf(text)
  {
    var parsed := Equality(text);
    if parsed.None? {
      return None;
    }
    var (path, quoted) := parsed.value;
    var value, escaped, index := "", false, 0;
    assert quoted[0..] == quoted;
    AfterNothing(Unescape(quoted));
    while index < |quoted|
      invariant 0 <= index <= |quoted|
      invariant escaped ==> index > 0 && quoted[index - 1] == '\\'
      invariant var from := if escaped then index - 1 else index;
                Unescape(quoted) == After(value, Unescape(quoted[from..]))
    {
      var character := quoted[index];
      ghost var here := quoted[index..];
      if escaped {
        ghost var from := quoted[index - 1..];
        assert from[1] == character && from[2..] == quoted[index + 1..];
        if character != '\"' && character != '\\' {
          return None;
        }
        AfterMore(value, character, Unescape(quoted[index + 1..]));
        value := value + [character];
        escaped := false;
      } else if character == '\\' {
        escaped := true;
      } else {
        assert here[1..] == quoted[index + 1..];
        if character == '\"' || character < ' ' {
          return None;
        }
        AfterMore(value, character, Unescape(quoted[index + 1..]));
        value := value + [character];
      }
      index := index + 1;
    }
    if escaped {
      assert quoted[index - 1..] == "\\";
      return None;
    }
    assert quoted[index..] == "" && value + "" == value;
    if value == "" || ByteLength(value) > MaxValueBytes {
      return None;
    }
    return Some((path, value));
  }

  // ---------------------------------------------------------------- the filter

  datatype Error = TooLarge | InvalidFilter | UnsupportedPath(path: string)

  function ClauseAt(segment: string): Result<Clause, Error> {
    match ClauseOf(segment)
    case None => Failure(InvalidFilter)
    case Some((path, value)) =>
      match FilterField(ToLower(path))
      case None => Failure(UnsupportedPath(path))
      case Some(field) => Success(Clause(path, field, value))
  }

  function ClausesOf(segments: seq<string>): Result<seq<Clause>, Error> {
    if segments == [] then Success([])
    else
      match ClauseAt(segments[0])
      case Failure(error) => Failure(error)
      case Success(clause) => Before([clause], ClausesOf(segments[1..]))
  }

  function Before(clauses: seq<Clause>, later: Result<seq<Clause>, Error>): Result<seq<Clause>, Error> {
    match later
    case Failure(error) => Failure(error)
    case Success(more) => Success(clauses + more)
  }

  function FilterOf(text: string, maxBytes: int, maxClauses: int): Result<seq<Clause>, Error> {
    var value := TrimSpace(text);
    if value == "" then Success([])
    else if ByteLength(value) > (if maxBytes <= 0 then 2048 else maxBytes) then Failure(TooLarge)
    else
      match SplitAnd(value)
      case None => Failure(InvalidFilter)
      case Some(segments) =>
        if |segments| > (if maxClauses <= 0 then 10 else maxClauses) then Failure(InvalidFilter)
        else ClausesOf(segments)
  }

  method ParseFilter(text: string, maxBytes: int, maxClauses: int)
    returns (result: Result<seq<Clause>, Error>)
    ensures result == FilterOf(text, maxBytes, maxClauses)
  {
    var value := TrimSpace(text);
    if value == "" {
      return Success([]);
    }
    var bytes := if maxBytes <= 0 then 2048 else maxBytes;
    var limit := if maxClauses <= 0 then 10 else maxClauses;
    if ByteLength(value) > bytes {
      return Failure(TooLarge);
    }
    var split := SplitFilterAnd(value);
    if split.None? || |split.value| > limit {
      return Failure(InvalidFilter);
    }
    result := ParseClauses(split.value);
  }

  method ParseClause(segment: string) returns (result: Result<Clause, Error>)
    ensures result == ClauseAt(segment)
  {
    var parsed := ParseEquality(segment);
    if parsed.None? {
      return Failure(InvalidFilter);
    }
    var (path, filterValue) := parsed.value;
    var field := FilterField(ToLower(path));
    if field.None? {
      return Failure(UnsupportedPath(path));
    }
    return Success(Clause(path, field.value, filterValue));
  }

  lemma BeforeNothing(later: Result<seq<Clause>, Error>)
    ensures Before([], later) == later
  {
    if later.Success? { assert [] + later.value == later.value; }
  }

  lemma BeforeMore(clauses: seq<Clause>, clause: Clause, later: Result<seq<Clause>, Error>)
    ensures Before(clauses, Before([clause], later)) == Before(clauses + [clause], later)
  {
    if later.Success? { assert clauses + ([clause] + later.value) == clauses + [clause] + later.value; }
  }

  method ParseClauses(segments: seq<string>) returns (result: Result<seq<Clause>, Error>)
    ensures result == ClausesOf(segments)
  {
    var clauses: seq<Clause> := [];
    var index := 0;
    assert segments[0..] == segments;
    BeforeNothing(ClausesOf(segments));
    while index < |segments|
      invariant 0 <= index <= |segments|
      invariant ClausesOf(segments) == Before(clauses, ClausesOf(segments[index..]))
    {
      assert segments[index..][1..] == segments[index + 1..];
      var clause :- ParseClause(segments[index]);
      BeforeMore(clauses, clause, ClausesOf(segments[index + 1..]));
      clauses := clauses + [clause];
      index := index + 1;
    }
    assert segments[index..] == [] && clauses + [] == clauses;
    return Success(clauses);
  }

  // ---------------------------------------------------------------- printing

  function Escape(value: string): string {
    if value == "" then ""
    else EscapeChar(value[0]) + Escape(value[1..])
  }

  function EscapeChar(c: char): string {
    if c == '\"' || c == '\\' then ['\\', c] else [c]
  }

  function PrintClause(clause: Clause): string {
    clause.path + " eq \"" + Escape(clause.value) + "\""
  }

  function PrintClauses(clauses: seq<Clause>): seq<string> {
    if clauses == [] then [] else [PrintClause(clauses[0])] + PrintClauses(clauses[1..])
  }

  function Print(clauses: seq<Clause>): string {
    Join(PrintClauses(clauses), " and ")
  }

  predicate NoControl(value: string) {
    forall i | 0 <= i < |value| :: value[i] >= ' '
  }

  predicate AllPrintable(clauses: seq<Clause>) {
    forall i | 0 <= i < |clauses| :: Printable(clauses[i])
  }

  predicate Printable(clause: Clause) {
    && FilterField(ToLower(clause.path)) == Some(clause.field)
    && 1 <= ByteLength(clause.value) <= MaxValueBytes
    && NoControl(clause.value)
  }

  /** A path, in any case, and the stored field it is compared with. */
  predicate Reads(path: string, field: string) {
    var name := ToLower(path);
    || (name == "id" && field == "id")
    || (name == "username" && field == "email")
    || (name == "emails.value" && field == "email")
    || (name == "externalid" && field == "accountId")
  }

  lemma ReadsIff(path: string, field: string)
    ensures FilterField(ToLower(path)) == Some(field) <==> Reads(path, field)
  {
  }

  /** Every clause that parses reads the stored field of its path, and a path is reported as
      unsupported only when it is none of the four. */
  lemma ParsedReads(text: string, maxBytes: int, maxClauses: int)
    ensures var result := FilterOf(text, maxBytes, maxClauses);
            && (result.Success? ==> forall i | 0 <= i < |result.value| :: Reads(result.value[i].path, result.value[i].field))
            && (result.Failure? && result.error.UnsupportedPath? ==> forall field :: !Reads(result.error.path, field))
  {
    var result := FilterOf(text, maxBytes, maxClauses);
    if result.Success? {
      ParsedIsPrintable(text, maxBytes, maxClauses);
      forall i | 0 <= i < |result.value|
        ensures Reads(result.value[i].path, result.value[i].field)
      {
        ReadsIff(result.value[i].path, result.value[i].field);
      }
    } else if result.error.UnsupportedPath? {
      UnsupportedAmong(SplitAnd(TrimSpace(text)).value);
      forall field
        ensures !Reads(result.error.path, field)
      {
        ReadsIff(result.error.path, field);
      }
    }
  }

  lemma {:induction false} UnsupportedAmong(segments: seq<string>)
    requires ClausesOf(segments).Failure? && ClausesOf(segments).error.UnsupportedPath?
    ensures FilterField(ToLower(ClausesOf(segments).error.path)).None?
  {
    if segments != [] && ClauseAt(segments[0]).Success? {
      UnsupportedAmong(segments[1..]);
    }
  }

  /** And a clause with any of the four paths parses. */
  lemma ReadablePathParses(path: string, field: string, value: string)
    requires Reads(path, field) && 1 <= ByteLength(value) <= MaxValueBytes && NoControl(value)
    requires ByteLength(Print([Clause(path, field, value)])) <= 2048
    ensures FilterOf(Print([Clause(path, field, value)]), 0, 0) == Success([Clause(path, field, value)])
  {
    ReadsIff(path, field);
    FilterRoundTrip([Clause(path, field, value)], 0, 0);
  }

  // ---------------------------------------------------------------- round trip

  /** A supported path holds no white space and no quote. */
  lemma PathIsPlain(path: string)
    requires FilterField(ToLower(path)).Some?
    ensures path != "" && PlainWord(path)
  {
    var key := ToLower(path);
    KeyLetters(key);
    forall i | 0 <= i < |path|
      ensures !IsSpace(path[i]) && path[i] != '\"'
    {
      assert key[i] == LowerChar(path[i]);
    }
  }

  lemma KeyLetters(key: string)
    requires FilterField(key).Some?
    ensures key != "" && forall i | 0 <= i < |key| :: key[i] == '.' || 'a' <= key[i] <= 'z'
  {
    if key == "id" {
    } else if key == "username" {
    } else if key == "externalid" {
    } else {
      assert key == "emails.value";
    }
  }

  predicate PlainWord(word: string) {
    forall i | 0 <= i < |word| :: !IsSpace(word[i]) && word[i] != '\"'
  }

  lemma {:induction false} UnescapeEscape(value: string)
    requires NoControl(value)
    ensures Unescape(Escape(value)) == Some(value)
  {
    if value != "" {
      UnescapeEscape(value[1..]);
      var head := EscapeChar(value[0]);
      assert Escape(value)[|head|..] == Escape(value[1..]);
      assert [value[0]] + value[1..] == value;
    }
  }

  /** One character read without a cut. */
  lemma ScanStep(c: char, rest: string, clause: string, quoted: bool, escaped: bool)
    requires c == ' ' && !quoted && !escaped ==> !AtSeparator([c] + rest)
    ensures Scan([c] + rest, clause, quoted, escaped)
         == var escapes := !escaped && quoted && c == '\\';
            Scan(rest, clause + [c], if !escaped && c == '\"' then !quoted else quoted, escapes)
  {
    var s := [c] + rest;
    assert s[1..] == rest;
    SeparatorStart(s);
  }

  lemma {:induction false} ScanPlain(plain: string, rest: string, clause: string)
    requires PlainWord(plain)
    ensures Scan(plain + rest, clause, false, false) == Scan(rest, clause + plain, false, false)
  {
    if plain == "" {
      assert plain + rest == rest && clause + plain == clause;
    } else {
      ScanStep(plain[0], plain[1..] + rest, clause, false, false);
      assert plain + rest == [plain[0]] + (plain[1..] + rest);
      ScanPlain(plain[1..], rest, clause + [plain[0]]);
      assert clause + [plain[0]] + plain[1..] == clause + plain;
    }
  }

  /** A blank not followed by "a" or "A" never starts a separator. */
  lemma ScanBlank(next: char, rest: string, clause: string)
    requires LowerChar(next) != 'a'
    ensures Scan([' ', next] + rest, clause, false, false) == Scan([next] + rest, clause + " ", false, false)
  {
    var s := [' ', next] + rest;
    assert s == [' '] + ([next] + rest);
    SeparatorStart(s);
    ScanStep(' ', [next] + rest, clause, false, false);
  }

  lemma ScanBlankE(rest: string, clause: string)
    ensures Scan([' '] + ("eq" + rest), clause, false, false) == Scan(rest, clause + [' '] + "eq", false, false)
  {
    assert [' '] + ("eq" + rest) == [' ', 'e'] + (['q'] + rest);
    ScanBlank('e', ['q'] + rest, clause);
    assert ['e'] + (['q'] + rest) == "eq" + rest;
    ScanPlain("eq", rest, clause + [' ']);
  }

  lemma ScanOperator(rest: string, clause: string)
    ensures Scan(" eq \"" + rest, clause, false, false) == Scan(rest, clause + " eq \"", true, false)
  {
    var quoted := [' ', '\"'] + rest;
    assert " eq \"" + rest == [' '] + ("eq" + quoted);
    ScanBlankE(quoted, clause);
    ScanBlank('\"', rest, clause + [' '] + "eq");
    ScanStep('\"', rest, clause + [' '] + "eq" + [' '], false, false);
    assert clause + [' '] + "eq" + [' '] + ['\"'] == clause + " eq \"";
  }

  /** Inside quotes the scanner passes over an escaped value without cutting it. */
  lemma {:induction false} ScanValue(value: string, rest: string, clause: string)
    ensures Scan(Escape(value) + rest, clause, true, false) == Scan(rest, clause + Escape(value), true, false)
  {
    if value == "" {
      assert Escape(value) + rest == rest && clause + Escape(value) == clause;
    } else {
      ScanValueChar(value[0], Escape(value[1..]) + rest, clause);
      var head := EscapeChar(value[0]);
      assert Escape(value) + rest == head + (Escape(value[1..]) + rest);
      ScanValue(value[1..], rest, clause + head);
      assert clause + head + Escape(value[1..]) == clause + Escape(value);
    }
  }

  lemma ScanValueChar(c: char, rest: string, clause: string)
    ensures Scan(EscapeChar(c) + rest, clause, true, false) == Scan(rest, clause + EscapeChar(c), true, false)
  {
    if c == '\"' || c == '\\' {
      assert EscapeChar(c) + rest == ['\\'] + ([c] + rest);
      ScanStep('\\', [c] + rest, clause, true, false);
      ScanStep(c, rest, clause + ['\\'], true, true);
      assert clause + ['\\'] + [c] == clause + EscapeChar(c);
    } else {
      ScanStep(c, rest, clause, true, false);
    }
  }

  lemma ScanQuoted(value: string, rest: string, clause: string)
    ensures Scan(Escape(value) + (['\"'] + rest), clause, true, false)
         == Scan(rest, clause + Escape(value) + ['\"'], false, false)
  {
    ScanValue(value, ['\"'] + rest, clause);
    ScanStep('\"', rest, clause + Escape(value), true, false);
  }

  lemma Regroup(a: string, b: string, c: string, d: string, e: string)
    ensures a + b + c + d + e == a + (b + (c + (d + e)))
  {
  }

  lemma ScanClause(clause: Clause, rest: string)
    requires Printable(clause)
    ensures Scan(PrintClause(clause) + rest, "", false, false) == Scan(rest, PrintClause(clause), false, false)
  {
    PathIsPlain(clause.path);
    var path, value, quote := clause.path, Escape(clause.value), ['\"'];
    Regroup(path, " eq \"", value, quote, rest);
    ScanPlain(path, " eq \"" + (value + (quote + rest)), "");
    assert "" + path == path;
    ScanOperator(value + (quote + rest), path);
    ScanQuoted(clause.value, rest, path + " eq \"");
  }

  /** A text with solid ends is its own trimmed form. */
  lemma TrimSolid(s: string)
    requires s != "" && !IsSpace(s[0]) && !IsSpace(s[|s| - 1])
    ensures TrimSpace(s) == s
    ensures TrimSpace([' '] + s) == s
  {
    assert ([' '] + s)[1..] == s;
    assert TrimLeft([' '] + s) == TrimLeft(s) == s;
  }

  lemma PrintedEnds(clause: Clause)
    requires Printable(clause)
    ensures var s := PrintClause(clause); s != "" && !IsSpace(s[0]) && s[|s| - 1] == '\"'
  {
    PathIsPlain(clause.path);
    assert PrintClause(clause)[0] == clause.path[0];
  }

  lemma PrintMore(clauses: seq<Clause>)
    requires |clauses| >= 2
    ensures Print(clauses) == PrintClause(clauses[0]) + (" and " + Print(clauses[1..]))
  {
    var printed := PrintClauses(clauses);
    assert printed[0] == PrintClause(clauses[0]) && printed[1..] == PrintClauses(clauses[1..]);
    assert |PrintClauses(clauses[1..])| > 0;
    assert printed[0] + " and " + Join(printed[1..], " and ") == printed[0] + (" and " + Join(printed[1..], " and "));
  }

  lemma PrintOne(clauses: seq<Clause>)
    requires |clauses| == 1
    ensures PrintClauses(clauses) == [PrintClause(clauses[0])]
    ensures Print(clauses) == PrintClause(clauses[0])
  {
    assert PrintClauses(clauses[1..]) == [];
  }

  /** Splitting a printed filter gives back the printed clauses. */
  lemma {:induction false} ScanPrinted(clauses: seq<Clause>)
    requires clauses != [] && AllPrintable(clauses)
    ensures Scan(Print(clauses), "", false, false) == Some(PrintClauses(clauses))
  {
    var printed := PrintClause(clauses[0]);
    PrintedEnds(clauses[0]);
    TrimSolid(printed);
    if |clauses| == 1 {
      PrintOne(clauses);
      ScanClause(clauses[0], "");
      assert printed + "" == printed;
    } else {
      var later := Print(clauses[1..]);
      PrintMore(clauses);
      ScanClause(clauses[0], " and " + later);
      ScanPrinted(clauses[1..]);
      ScanCut(later, printed);
    }
  }

  lemma ScanCut(rest: string, clause: string)
    requires Scan(rest, "", false, false).Some?
    ensures Scan(" and " + rest, clause, false, false)
         == Some([TrimSpace(clause)] + Scan(rest, "", false, false).value)
  {
    var s := " and " + rest;
    assert s[..5] == " and " && s[5..] == rest;
    assert ToLower(" and ") == " and ";
  }

  lemma {:induction false} FirstWord(word: string, rest: string)
    requires rest != "" && IsSpace(rest[0]) && PlainWord(word)
    ensures WordLength(word + rest) == |word|
  {
    if word == "" {
      assert word + rest == rest;
    } else {
      assert (word + rest)[1..] == word[1..] + rest;
      FirstWord(word[1..], rest);
    }
  }

  lemma FieldsStep(word: string, rest: string)
    requires word != "" && PlainWord(word)
    ensures Fields(word + ([' '] + rest)) == [word] + Fields(rest)
  {
    var s := word + ([' '] + rest);
    FirstWord(word, [' '] + rest);
    assert s[..|word|] == word && s[|word|..] == [' '] + rest;
    assert ([' '] + rest)[1..] == rest;
  }

  lemma FieldsOfPrinted(path: string, operand: string)
    requires path != "" && PlainWord(path)
    requires operand != "" && operand[0] == '\"'
    ensures var parts := Fields(path + ([' '] + ("eq" + ([' '] + operand))));
            |parts| >= 3 && parts[0] == path && parts[1] == "eq"
  {
    FieldsStep(path, "eq" + ([' '] + operand));
    FieldsStep("eq", operand);
    assert |Fields(operand)| >= 1;
  }

  lemma EqualityOfPrinted(path: string, quoted: string)
    requires path != "" && PlainWord(path)
    ensures Equality(path + " eq \"" + quoted + "\"") == Some((path, quoted))
  {
    var s, operand := path + " eq \"" + quoted + "\"", "\"" + quoted + "\"";
    var operator := "eq" + ([' '] + operand);
    assert s == path + ([' '] + operator);
    FieldsOfPrinted(path, operand);
    assert s[|path|..] == [' '] + operator;
    assert operator[|operator| - 1] == '\"';
    TrimSolid(operator);
    assert operator[..2] == "eq" && operator[2..] == [' '] + operand;
    EqFolds();
    TrimSolid(operand);
    assert operand[1..|operand| - 1] == quoted;
  }

  lemma EqFolds()
    ensures EqualFold("eq", "eq")
  {
  }

  lemma ClauseOfPrinted(clause: Clause)
    requires Printable(clause)
    ensures ClauseOf(PrintClause(clause)) == Some((clause.path, clause.value))
  {
    PathIsPlain(clause.path);
    UnescapeEscape(clause.value);
    EqualityOfPrinted(clause.path, Escape(clause.value));
  }

  lemma {:induction false} ClausesOfPrinted(clauses: seq<Clause>)
    requires AllPrintable(clauses)
    ensures ClausesOf(PrintClauses(clauses)) == Success(clauses)
    ensures |PrintClauses(clauses)| == |clauses|
    ensures "" !in PrintClauses(clauses)
  {
    if clauses != [] {
      ClauseOfPrinted(clauses[0]);
      PrintedEnds(clauses[0]);
      ClausesOfPrinted(clauses[1..]);
      assert PrintClauses(clauses)[1..] == PrintClauses(clauses[1..]);
      assert clauses == [clauses[0]] + clauses[1..];
    }
  }

  lemma {:induction false} PrintedFilterEnds(clauses: seq<Clause>)
    requires clauses != [] && AllPrintable(clauses)
    ensures var s := Print(clauses); s != "" && !IsSpace(s[0]) && s[|s| - 1] == '\"'
  {
    PrintedEnds(clauses[0]);
    if |clauses| == 1 {
      PrintOne(clauses);
    } else {
      PrintMore(clauses);
      PrintedFilterEnds(clauses[1..]);
    }
  }

  /** Printing any non-empty list of clauses within the limits and parsing the text gives
      back the same list. */
  lemma FilterRoundTrip(clauses: seq<Clause>, maxBytes: int, maxClauses: int)
    requires clauses != [] && AllPrintable(clauses)
    requires |clauses| <= (if maxClauses <= 0 then 10 else maxClauses)
    requires ByteLength(Print(clauses)) <= (if maxBytes <= 0 then 2048 else maxBytes)
    ensures FilterOf(Print(clauses), maxBytes, maxClauses) == Success(clauses)
  {
    ScanPrinted(clauses);
    ClausesOfPrinted(clauses);
    PrintedFilterEnds(clauses);
    TrimSolid(Print(clauses));
  }

  /** Whatever a filter parses to is printable, so the round trip covers every parsed list. */
  lemma ParsedIsPrintable(text: string, maxBytes: int, maxClauses: int)
    requires FilterOf(text, maxBytes, maxClauses).Success?
    ensures AllPrintable(FilterOf(text, maxBytes, maxClauses).value)
  {
    if TrimSpace(text) != "" {
      ClausesArePrintable(SplitAnd(TrimSpace(text)).value);
    }
  }

  lemma {:induction false} ClausesArePrintable(segments: seq<string>)
    requires ClausesOf(segments).Success?
    ensures AllPrintable(ClausesOf(segments).value)
  {
    if segments != [] {
      ClausesArePrintable(segments[1..]);
      var Some((path, quoted)) := Equality(segments[0]);
      UnescapedIsPlain(quoted);
    }
  }

  lemma {:induction false} UnescapedIsPlain(text: string)
    requires Unescape(text).Some?
    ensures NoControl(Unescape(text).value)
  {
    if text != "" {
      UnescapedIsPlain(if text[0] == '\\' then text[2..] else text[1..]);
    }
  }
}
