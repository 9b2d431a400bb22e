/** Canonical trading-pair names. */
module PairName {
  import opened Types

  datatype PairError = PairRequired | InvalidPair

  /** Unicode white space. */
  predicate IsSpace(c: char) {
    var n := c as int;
    || 9 <= n <= 13 || n == 0x20 || n == 0x85 || n == 0xA0 || n == 0x1680
    || 0x2000 <= n <= 0x200A || n == 0x2028 || n == 0x2029 || n == 0x202F || n == 0x205F || n == 0x3000
  }

  predicate IsSeparator(c: char) {
    c == '/' || c == '-' || c == '_'
  }

  predicate IsAllowed(c: char) {
    'A' <= c <= 'Z' || 'a' <= c <= 'z' || '0' <= c <= '9' || IsSeparator(c)
  }

  function Upper(c: char): char {
    if 'a' <= c <= 'z' then (c as int - 32) as char else c
  }

  function UpperAll(s: string): string {
    seq(|s|, i requires 0 <= i < |s| => Upper(s[i]))
  }

  function TrimStart(s: string): string {
    if s != [] && IsSpace(s[0]) then TrimStart(s[1..]) else s
  }

  function TrimEnd(s: string): string {
    if s != [] && IsSpace(s[|s| - 1]) then TrimEnd(s[..|s| - 1]) else s
  }

  /** The first separator at or after `i`, or `|s|`. */
  function FirstSeparator(s: string, i: nat): (k: nat)
    requires i <= |s|
    ensures i <= k <= |s|
    ensures k < |s| ==> IsSeparator(s[k])
    decreases |s| - i
  {
    if i == |s| || IsSeparator(s[i]) then i else FirstSeparator(s, i + 1)
  }


  /** What parsing makes of a trimmed, non-empty name. */
  function ParseName(name: string): Result<string, PairError>
    requires name != []
  {
    var upper := UpperAll(name);
    var k := FirstSeparator(upper, 0);
    if k == |upper| || k == 0 || k + 1 == |upper| then Err(InvalidPair)
    else if exists i :: 0 <= i < |upper| && !IsAllowed(upper[i]) then Err(InvalidPair)
    else Ok(upper)
  }

  function Parse(input: string): Result<string, PairError> {
    var name := TrimEnd(TrimStart(input));
    if name == [] then Err(PairRequired) else ParseName(name)
  }

  /** Parsing a canonical name changes nothing: replaying a stored name finds the same key. */
  lemma ParseIdempotent(input: string)
    ensures Parse(input).Ok? ==> Parse(Parse(input).value) == Parse(input)
  {
    if Parse(input).Ok? {
      var p := Parse(input).value;
      assert IsAllowed(p[0]) && IsAllowed(p[|p| - 1]);
      assert TrimEnd(TrimStart(p)) == p;
      assert UpperAll(p) == p;
    }
  }

  // ---------------------------------------------------------------- what parses, and to what

  predicate Blank(s: string) {
    forall i :: 0 <= i < |s| ==> IsSpace(s[i])
  }

  /** `name` is the input without the white space around it. */
  ghost predicate TrimmedTo(input: string, name: string) {
    && (exists lead, trail :: Blank(lead) && Blank(trail) && input == lead + name + trail)
    && (name != [] ==> !IsSpace(name[0]) && !IsSpace(name[|name| - 1]))
  }

  lemma BlankJoin(a: string, b: string)
    requires Blank(a) && Blank(b)
    ensures Blank(a + b)
  {
  }

  lemma {:induction false} TrimStartSplits(s: string) returns (lead: string)
    ensures Blank(lead) && s == lead + TrimStart(s)
    ensures var t := TrimStart(s); t != [] ==> !IsSpace(t[0])
  {
    lead := [];
    if s != [] && IsSpace(s[0]) {
      var rest := TrimStartSplits(s[1..]);
      BlankJoin([s[0]], rest);
      lead := [s[0]] + rest;
      assert s == [s[0]] + (rest + TrimStart(s[1..]));
    }
  }

  lemma {:induction false} TrimEndSplits(s: string) returns (trail: string)
    ensures Blank(trail) && s == TrimEnd(s) + trail
    ensures var t := TrimEnd(s); t != [] ==> t[0] == s[0] && !IsSpace(t[|t| - 1])
  {
    trail := [];
    if s != [] && IsSpace(s[|s| - 1]) {
      var n := |s| - 1;
      var rest := TrimEndSplits(s[..n]);
      BlankJoin(rest, [s[n]]);
      trail := rest + [s[n]];
      assert s == (TrimEnd(s[..n]) + rest) + [s[n]];
    }
  }

  lemma TrimTrims(input: string)
    ensures TrimmedTo(input, TrimEnd(TrimStart(input)))
  {
    var lead := TrimStartSplits(input);
    var trail := TrimEndSplits(TrimStart(input));
    assert input == lead + TrimEnd(TrimStart(input)) + trail;
  }

  /** Only letters, digits and separators, and a separator with something on either side that no other one precedes. */
  predicate WellFormed(name: string) {
    && (forall i :: 0 <= i < |name| ==>
                      || 'A' <= name[i] <= 'Z' || 'a' <= name[i] <= 'z' || '0' <= name[i] <= '9'
                      || name[i] == '/' || name[i] == '-' || name[i] == '_')
    && |name| > 0 && name[0] !in "/-_"
    && exists i :: 0 < i < |name| - 1 && name[i] in "/-_"
  }

  /** `upper` is `name` in upper case. */
  predicate Uppercased(name: string, upper: string) {
    && |upper| == |name|
    && forall i :: 0 <= i < |name| ==>
                     if 'a' <= name[i] <= 'z' then 'A' <= upper[i] <= 'Z' && upper[i] as int - 'A' as int == name[i] as int - 'a' as int
                     else upper[i] == name[i]
  }

  lemma UpperAllIs(s: string)
    ensures Uppercased(s, UpperAll(s))
  {
  }

  lemma {:induction false} NoneBeforeFirst(s: string, i: nat, j: nat)
    requires i <= |s| && i <= j < FirstSeparator(s, i)
    ensures !IsSeparator(s[j])
    decreases j - i
  {
    if i < j {
      NoneBeforeFirst(s, i + 1, j);
    }
  }

  /** Where the first separator is says whether both sides of some separator are there. */
  lemma FirstSeparatorSplits(s: string)
    requires s != []
    ensures var k := FirstSeparator(s, 0);
            0 < k < |s| - 1 <==> !IsSeparator(s[0]) && exists i :: 0 < i < |s| - 1 && IsSeparator(s[i])
  {
    var k := FirstSeparator(s, 0);
    if i :| 0 < i < |s| - 1 && IsSeparator(s[i]) {
      if i < k {
        NoneBeforeFirst(s, 0, i);
      }
    }
    if 0 < k {
      NoneBeforeFirst(s, 0, 0);
    }
  }

  lemma UpperKeepsShape(s: string, upper: string)
    requires Uppercased(s, upper)
    ensures forall i :: 0 <= i < |s| ==> (IsSeparator(s[i]) <==> IsSeparator(upper[i])) && (IsAllowed(s[i]) <==> IsAllowed(upper[i]))
  {
  }

  lemma NameParsesExactly(name: string)
    requires name != []
    ensures ParseName(name) == if WellFormed(name) then Ok(UpperAll(name)) else Err(InvalidPair)
  {
    var upper := UpperAll(name);
    UpperAllIs(name);
    UpperKeepsShape(name, upper);
    FirstSeparatorSplits(upper);
    if WellFormed(name) {
      var i :| 0 < i < |name| - 1 && IsSeparator(name[i]);
      assert IsSeparator(upper[i]);
    }
    if i :| 0 < i < |upper| - 1 && IsSeparator(upper[i]) {
      assert IsSeparator(name[i]);
    }
  }

  /**
    An input is accepted exactly when what is left without the white space around it is well formed, and then as that in
    upper case; it is missing when nothing is left.
   */
  lemma ParseExactly(input: string) returns (name: string)
    ensures TrimmedTo(input, name)
    ensures Parse(input) == Err(PairRequired) <==> name == []
    ensures Parse(input).Ok? <==> WellFormed(name)
    ensures Parse(input).Ok? ==> Uppercased(name, Parse(input).value)
  {
    name := TrimEnd(TrimStart(input));
    TrimTrims(input);
    if name != [] {
      NameParsesExactly(name);
      UpperAllIs(name);
    }
  }
}
