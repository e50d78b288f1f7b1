/** Role strings: lists of role names in canonical form. */
module RoleNames {
  import opened Wrappers
  import opened Strings
  import Records

  predicate ValidChar(c: char) {
    c == '-' || c == '_' || 'a' <= c <= 'z' || '0' <= c <= '9'
  }

  predicate ValidName(name: string) {
    0 < |name| <= 64 && forall c | c in name :: ValidChar(c)
  }

  /** validRoleName. Valid names are ASCII, so their length in bytes is their length. */
  method ValidRoleName(name: string) returns (valid: bool)
    ensures valid == ValidName(name)
  {
    if name == "" || ByteLength(name) > 64 {
      ByteLengthBounds(name);
      if forall c | c in name :: ValidChar(c) { AsciiLength(name); }
      return false;
    }
    ByteLengthBounds(name);
    for i := 0 to |name|
      invariant forall c | c in name[..i] :: ValidChar(c)
    {
      if !ValidChar(name[i]) {
        assert name[i] in name;
        return false;
      }
    }
    assert name[..|name|] == name;
    return true;
  }

  lemma {:induction false} ByteLengthBounds(s: string)
    ensures ByteLength(s) >= |s|
  {
    if s != "" { ByteLengthBounds(s[1..]); }
  }

  lemma {:induction false} AsciiLength(s: string)
    requires forall c | c in s :: ValidChar(c)
    ensures ByteLength(s) == |s|
  {
    if s != "" {
      assert s[0] in s;
      AsciiLength(s[1..]);
    }
  }

  // ---------------------------------------------------------------- sorted lists of names

  predicate Before(a: string, b: string) {
    Records.CompareText(a, b) == Records.Less
  }

  lemma {:induction false} CompareIsTotal(a: string, b: string)
    ensures Records.CompareText(a, b) == Records.Equal <==> a == b
    ensures Before(a, b) <==> Records.CompareText(b, a) == Records.Greater
  {
    if a != "" && b != "" && a[0] == b[0] {
      CompareIsTotal(a[1..], b[1..]);
      assert a == [a[0]] + a[1..] && b == [b[0]] + b[1..];
    }
  }

  lemma {:induction false} BeforeIsTransitive(a: string, b: string, d: string)
    requires Before(a, b) && Before(b, d)
    ensures Before(a, d)
  {
    if a != "" && b != "" && d != "" && a[0] == b[0] == d[0] {
      BeforeIsTransitive(a[1..], b[1..], d[1..]);
    }
  }

  predicate Ascending(names: seq<string>) {
    forall i, j | 0 <= i < j < |names| :: Before(names[i], names[j])
  }

  function Insert(sorted: seq<string>, name: string): seq<string> {
    if sorted == [] then [name]
    else if sorted[0] == name then sorted
    else if Before(name, sorted[0]) then [name] + sorted
    else [sorted[0]] + Insert(sorted[1..], name)
  }

  /** slices.Sort followed by slices.Compact. */
  function Sorted(names: seq<string>): seq<string> {
    if names == [] then [] else Insert(Sorted(names[..|names| - 1]), names[|names| - 1])
  }

  lemma {:induction false} InsertKeeps(sorted: seq<string>, name: string)
    ensures forall n :: n in Insert(sorted, name) <==> n in sorted || n == name
  {
    if sorted != [] && sorted[0] != name && !Before(name, sorted[0]) {
      InsertKeeps(sorted[1..], name);
      assert sorted == [sorted[0]] + sorted[1..];
    }
  }

  lemma ConsAscending(first: string, rest: seq<string>)
    requires Ascending(rest) && (rest != [] ==> Before(first, rest[0]))
    ensures Ascending([first] + rest)
  {
    forall j | 0 <= j < |rest|
      ensures Before(first, rest[j])
    {
      if j > 0 { BeforeIsTransitive(first, rest[0], rest[j]); }
    }
  }

  lemma {:induction false} InsertAscending(sorted: seq<string>, name: string)
    requires Ascending(sorted)
    ensures Ascending(Insert(sorted, name))
  {
    if sorted != [] && sorted[0] != name {
      if Before(name, sorted[0]) {
        ConsAscending(name, sorted);
      } else {
        CompareIsTotal(name, sorted[0]);
        CompareIsTotal(sorted[0], name);
        InsertAscending(sorted[1..], name);
        InsertFirst(sorted[1..], name);
        ConsAscending(sorted[0], Insert(sorted[1..], name));
      }
    }
  }

  lemma InsertFirst(sorted: seq<string>, name: string)
    ensures Insert(sorted, name)[0] == name || (sorted != [] && Insert(sorted, name)[0] == sorted[0])
  {
  }

  lemma {:induction false} SortedIsCanonical(names: seq<string>)
    ensures Ascending(Sorted(names))
    ensures forall n :: n in Sorted(names) <==> n in names
  {
    if names != [] {
      var init, last := names[..|names| - 1], names[|names| - 1];
      SortedIsCanonical(init);
      InsertAscending(Sorted(init), last);
      InsertKeeps(Sorted(init), last);
      assert names == init + [last];
    }
  }

  // ---------------------------------------------------------------- canonical role strings

  function Normal(name: string): string {
    ToLower(TrimSpace(name))
  }

  function NormalAll(names: seq<string>): (r: seq<string>)
    ensures |r| == |names| && forall i | 0 <= i < |r| :: r[i] == Normal(names[i])
  {
    seq(|names|, i requires 0 <= i < |names| => Normal(names[i]))
  }

  /** The names in a list of comma-separated lists. */
  function NamesIn(values: seq<string>): seq<string> {
    if values == [] then [] else NamesIn(values[..|values| - 1]) + NormalAll(Split(values[|values| - 1], ','))
  }

  function Canonical(values: seq<string>): Option<string> {
    if forall n | n in NamesIn(values) :: ValidName(n) then Some(Join(Sorted(NamesIn(values)), [','])) else None
  }

  method CanonicalRoles(values: seq<string>) returns (role: Option<string>)
    ensures role == Canonical(values)
  {
    var result: seq<string> := [];
    for v := 0 to |values|
      invariant result == NamesIn(values[..v]) && forall n | n in result :: ValidName(n)
    {
      var parts := Split(values[v], ',');
      assert values[..v + 1][..v] == values[..v];
      for i := 0 to |parts|
        invariant result == NamesIn(values[..v]) + NormalAll(parts)[..i]
        invariant forall n | n in result :: ValidName(n)
      {
        var name := ToLower(TrimSpace(parts[i]));
        var valid := ValidRoleName(name);
        if !valid {
          assert NormalAll(parts)[i] in NamesIn(values[..v + 1]);
          NamesInMore(values, v + 1, name);
          return None;
        }
        result := result + [name];
      }
      assert NormalAll(parts)[..|parts|] == NormalAll(parts);
    }
    assert values[..|values|] == values;
    return Some(Join(Sorted(result), [',']));
  }

  lemma {:induction false} NamesInMore(values: seq<string>, n: nat, name: string)
    requires n <= |values| && name in NamesIn(values[..n])
    ensures name in NamesIn(values)
    decreases |values| - n
  {
    if n < |values| {
      assert values[..n + 1][..n] == values[..n];
      NamesInMore(values, n + 1, name);
    } else {
      assert values[..n] == values;
    }
  }

  lemma ValidHasNoComma(name: string)
    requires ValidName(name)
    ensures ',' !in name
  {
  }

  /** Splitting a canonical role string gives exactly the requested names, each once, in order. */
  lemma CanonicalSplits(values: seq<string>)
    requires Canonical(values).Some? && values != []
    ensures Split(Canonical(values).value, ',') == Sorted(NamesIn(values))
    ensures Ascending(Split(Canonical(values).value, ','))
    ensures forall n :: n in Split(Canonical(values).value, ',') <==> n in NamesIn(values)
  {
    var names := NamesIn(values);
    SortedIsCanonical(names);
    assert |NormalAll(Split(values[|values| - 1], ','))| >= 1;
    assert names[|names| - 1] in names;
    assert Sorted(names) != [];
    forall p | p in Sorted(names)
      ensures ',' !in p
    {
      assert p in names;
      ValidHasNoComma(p);
    }
    SplitJoin(Sorted(names), ',');
  }

  /** A valid name is its own normal form. */
  lemma ValidIsNormal(name: string)
    requires ValidName(name)
    ensures Normal(name) == name
  {
    assert name[0] in name && name[|name| - 1] in name;
    assert !IsSpace(name[0]) && !IsSpace(name[|name| - 1]);
    assert TrimLeft(name) == name && TrimRight(name) == name;
    forall i | 0 <= i < |name|
      ensures LowerChar(name[i]) == name[i]
    {
      assert name[i] in name;
    }
  }

  lemma {:induction false} SortAscending(names: seq<string>)
    requires Ascending(names)
    ensures Sorted(names) == names
  {
    if names != [] {
      var init, last := names[..|names| - 1], names[|names| - 1];
      SortAscending(init);
      assert forall i | 0 <= i < |init| :: Before(init[i], last);
      InsertLast(init, last);
      assert names == init + [last];
    }
  }

  lemma {:induction false} InsertLast(sorted: seq<string>, name: string)
    requires forall i | 0 <= i < |sorted| :: Before(sorted[i], name)
    ensures Insert(sorted, name) == sorted + [name]
  {
    if sorted != [] {
      CompareIsTotal(sorted[0], name);
      CompareIsTotal(name, sorted[0]);
      assert forall i | 0 <= i < |sorted[1..]| :: Before(sorted[1..][i], name);
      InsertLast(sorted[1..], name);
      assert sorted == [sorted[0]] + sorted[1..];
    }
  }

  /** Canonicalising twice is canonicalising once. */
  lemma CanonicalIsIdempotent(values: seq<string>)
    requires Canonical(values).Some? && values != []
    ensures Canonical([Canonical(values).value]) == Canonical(values)
  {
    var role := Canonical(values).value;
    CanonicalSplits(values);
    var names := Split(role, ',');
    forall n | n in names
      ensures ValidName(n) && Normal(n) == n
    {
      ValidIsNormal(n);
    }
    assert forall i | 0 <= i < |names| :: names[i] in names;
    assert NormalAll(names) == names;
    assert [role][..0] == [];
    assert NamesIn([role]) == NamesIn([]) + names;
    assert NamesIn([role]) == names;
    SortAscending(names);
    JoinSplit(role, ',');
  }
}
