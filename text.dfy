/** The string operations of Python that the core relies on: `str.lower`,
    `str.upper`, `str.strip`, the `in` test for substrings, `str.join`,
    and `str()` of a value. Case mapping and whitespace are ASCII. */
module Text {
  import opened Values

  /** The ASCII characters for which `str.isspace()` holds: those `str.strip()` removes
      and `\s` matches. */
  predicate IsSpace(c: char) {
    c == ' ' || '\t' <= c <= '\r' || '\U{1C}' <= c <= '\U{1F}'
  }

  /** `s.lstrip()`: drops the leading whitespace, and only that. */
  function TrimLeft(s: string): (r: string)
    ensures |r| <= |s| && r == s[|s| - |r|..]
    ensures forall i :: 0 <= i < |s| - |r| ==> IsSpace(s[i])
    ensures r == [] || !IsSpace(r[0])
  {
    if s == [] || !IsSpace(s[0]) then s
    else TrimLeft(s[1..])
  }

  /** `s.rstrip()`: drops the trailing whitespace, and only that. */
  function TrimRight(s: string): (r: string)
    ensures |r| <= |s| && r == s[..|r|]
    ensures forall i :: |r| <= i < |s| ==> IsSpace(s[i])
    ensures r == [] || !IsSpace(r[|r| - 1])
  {
    if s == [] || !IsSpace(s[|s| - 1]) then s
    else TrimRight(s[..|s| - 1])
  }

  /** `s.strip()` */
  function Strip(s: string): string {
    TrimRight(TrimLeft(s))
  }

  /** Stripping leaves nothing exactly when every character is whitespace. */
  lemma StripEmptyIff(s: string)
    ensures Strip(s) == [] <==> forall i :: 0 <= i < |s| ==> IsSpace(s[i])
  {
    var l := TrimLeft(s);
    if Strip(s) == [] {
      assert l == [];
    } else if l != [] {
      assert !IsSpace(s[|s| - |l|]);
    }
  }

  predicate IsUpperLetter(c: char) { 'A' <= c <= 'Z' }

  predicate IsLowerLetter(c: char) { 'a' <= c <= 'z' }

  function LowerChar(c: char): (r: char)
    ensures !IsUpperLetter(r)
  {
    if IsUpperLetter(c) then (c as int + 32) as char else c
  }

  function UpperChar(c: char): (r: char)
    ensures !IsLowerLetter(r)
  {
    if IsLowerLetter(c) then (c as int - 32) as char else c
  }

  /** `s.lower()` */
  function Lower(s: string): (r: string)
    ensures |r| == |s|
    decreases |s|
  {
    if s == [] then [] else [LowerChar(s[0])] + Lower(s[1..])
  }

  /** `s.upper()` */
  function Upper(s: string): (r: string)
    ensures |r| == |s|
    decreases |s|
  {
    if s == [] then [] else [UpperChar(s[0])] + Upper(s[1..])
  }

  /** Both case maps work one character at a time. */
  lemma {:induction false} CaseMapsAt(s: string)
    ensures forall i :: 0 <= i < |s| ==> Lower(s)[i] == LowerChar(s[i]) && Upper(s)[i] == UpperChar(s[i])
    decreases |s|
  {
    if s != [] {
      CaseMapsAt(s[1..]);
    }
  }

  /** Both case maps distribute over concatenation. */
  lemma {:induction false} CaseMapsAppend(a: string, b: string)
    ensures Lower(a + b) == Lower(a) + Lower(b)
    ensures Upper(a + b) == Upper(a) + Upper(b)
    decreases |a|
  {
    if a != [] {
      CaseMapsAppend(a[1..], b);
      assert (a + b)[0] == a[0];
      assert (a + b)[1..] == a[1..] + b;
      assert Lower(a + b) == [LowerChar(a[0])] + Lower(a[1..] + b);
      assert Upper(a + b) == [UpperChar(a[0])] + Upper(a[1..] + b);
      assert Lower(a) == [LowerChar(a[0])] + Lower(a[1..]);
      assert Upper(a) == [UpperChar(a[0])] + Upper(a[1..]);
    } else {
      assert a + b == b;
    }
  }

  /** `s` has no lower-case letter, so `s.upper() == s`. */
  predicate IsUpperCase(s: string) {
    forall i :: 0 <= i < |s| ==> !IsLowerLetter(s[i])
  }

  /** `s.upper()` never contains a lower-case letter. */
  lemma UpperIsUpperCase(s: string)
    ensures IsUpperCase(Upper(s))
  {
    CaseMapsAt(s);
  }

  /** Upper-casing leaves an upper-case string as it is. */
  lemma {:induction false} UpperOfUpperCase(s: string)
    requires IsUpperCase(s)
    ensures Upper(s) == s
    decreases |s|
  {
    if s != [] {
      UpperOfUpperCase(s[1..]);
    }
  }

  /** Lower-casing forgets what upper-casing did. */
  lemma {:induction false} LowerOfUpper(s: string)
    ensures Lower(Upper(s)) == Lower(s)
    decreases |s|
  {
    if s != [] {
      LowerOfUpper(s[1..]);
    }
  }

  /** `sub in s` */
  predicate Contains(s: string, sub: string)
    decreases |s|
  {
    |sub| <= |s| && (s[..|sub|] == sub || Contains(s[1..], sub))
  }

  /** An occurrence of `sub` at position `i` makes `sub in s` true. */
  lemma {:induction false} ContainsAt(s: string, sub: string, i: nat)
    requires i + |sub| <= |s| && s[i..i + |sub|] == sub
    ensures Contains(s, sub)
  {
    if i > 0 {
      assert s[1..][i - 1..i - 1 + |sub|] == sub;
      ContainsAt(s[1..], sub, i - 1);
    }
  }

  /** A string contains each of the pieces it is built from. */
  lemma ContainsMiddle(a: string, b: string, c: string)
    ensures Contains(a + b + c, b)
  {
    assert (a + b + c)[|a|..|a| + |b|] == b;
    ContainsAt(a + b + c, b, |a|);
  }

  /** Text added after an occurrence keeps it. */
  lemma {:induction false} ContainsExtend(a: string, b: string, sub: string)
    requires Contains(a, sub)
    ensures Contains(a + b, sub)
    decreases |a|
  {
    assert (a + b)[..|sub|] == a[..|sub|];
    if a[..|sub|] != sub {
      assert (a + b)[1..] == a[1..] + b;
      ContainsExtend(a[1..], b, sub);
    }
  }

  /** Text added before an occurrence keeps it. */
  lemma {:induction false} ContainsAfter(a: string, b: string, sub: string)
    requires Contains(b, sub)
    ensures Contains(a + b, sub)
    decreases |a|
  {
    if a == [] {
      assert a + b == b;
    } else {
      assert (a + b)[1..] == a[1..] + b;
      ContainsAfter(a[1..], b, sub);
    }
  }

  /** A string found in the lower case of one part is found in the lower case of the joined parts. */
  lemma {:induction false} LowerJoinContains(sep: string, parts: seq<string>, k: nat, sub: string)
    requires k < |parts| && Contains(Lower(parts[k]), sub)
    ensures Contains(Lower(Join(sep, parts)), sub)
    decreases |parts|
  {
    if |parts| > 1 {
      var rest := Join(sep, parts[1..]);
      if k == 0 {
        assert Join(sep, parts) == parts[0] + (sep + rest);
        CaseMapsAppend(parts[0], sep + rest);
        ContainsExtend(Lower(parts[0]), Lower(sep + rest), sub);
      } else {
        assert parts[1..][k - 1] == parts[k];
        LowerJoinContains(sep, parts[1..], k - 1, sub);
        CaseMapsAppend(parts[0] + sep, rest);
        ContainsAfter(Lower(parts[0] + sep), Lower(rest), sub);
      }
    }
  }

  /** `any(m in s for m in markers)` */
  predicate ContainsAny(s: string, markers: seq<string>) {
    exists m :: m in markers && Contains(s, m)
  }

  /** `sep.join(parts)` */
  function Join(sep: string, parts: seq<string>): string
    decreases |parts|
  {
    if parts == [] then ""
    else if |parts| == 1 then parts[0]
    else parts[0] + sep + Join(sep, parts[1..])
  }

  function DigitChar(d: nat): char
    requires d < 10
  {
    ('0' as int + d) as char
  }

  function NatToString(n: nat): string
    decreases n
  {
    if n < 10 then [DigitChar(n)] else NatToString(n / 10) + [DigitChar(n % 10)]
  }

  /** `str(n)` and `f"{n}"` of an `int` */
  function IntToString(n: int): string {
    if n < 0 then "-" + NatToString(-n) else NatToString(n)
  }

  /** `repr(v)`. Python's choice of quote character and its escapes are not modelled. */
  function Repr(v: Value): string
    decreases v
  {
    match v
    case Null => "None"
    case Bool(b) => if b then "True" else "False"
    case Int(i) => IntToString(i)
    case Str(s) => "'" + s + "'"
    case List(items) => "[" + ReprItems(items) + "]"
    case Dict(entries) => "{" + ReprEntries(entries) + "}"
  }

  /** The items of a list, each as its `repr`, separated by `", "`. */
  function ReprItems(items: seq<Value>): string
    decreases items
  {
    if items == [] then ""
    else if |items| == 1 then Repr(items[0])
    else Repr(items[0]) + ", " + ReprItems(items[1..])
  }

  /** The entries of a dict as `'key': repr(value)`, separated by `", "`. */
  function ReprEntries(entries: seq<Entry>): string
    decreases entries
  {
    if entries == [] then ""
    else
      var first := "'" + entries[0].key + "': " + Repr(entries[0].val);
      if |entries| == 1 then first else first + ", " + ReprEntries(entries[1..])
  }

  /** `str(v)`: a string is itself, anything else its `repr`. */
  function PyStr(v: Value): string {
    match v
    case Str(s) => s
    case _ => Repr(v)
  }
}
