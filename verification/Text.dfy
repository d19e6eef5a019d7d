/** Strings as Go sees them here: character classes, joining, trimming, decimal numbers and
    the substring test that search promises. */
module Text {

  datatype Option<+T> = None | Some(value: T)

  /** The character classes the query lexer's patterns are built from. */
  datatype Class = Blank | IdentStart | IdentPart | Digit

  predicate IsLetter(c: char) {
    'a' <= c <= 'z' || 'A' <= c <= 'Z' || c == '_'
  }

  predicate IsDigit(c: char) {
    '0' <= c <= '9'
  }

  predicate IsBlank(c: char) {
    c == ' ' || c == '\t' || c == '\n' || c == '\r' || c == '\U{0C}'
  }

  predicate In(c: char, k: Class) {
    match k
    case Blank => IsBlank(c)
    case IdentStart => IsLetter(c)
    case IdentPart => IsLetter(c) || IsDigit(c) || c == '.' || c == '-'
    case Digit => IsDigit(c)
  }

  /** The length of the longest prefix of s made of characters of class k. */
  function Span(k: Class, s: string): (n: nat)
    ensures n <= |s|
    ensures forall i :: 0 <= i < n ==> In(s[i], k)
    ensures n < |s| ==> !In(s[n], k)
  {
    if s != "" && In(s[0], k) then 1 + Span(k, s[1..]) else 0
  }

  lemma {:induction false} SpanUnique(k: Class, s: string, n: nat)
    requires n <= |s|
    requires forall i :: 0 <= i < n ==> In(s[i], k)
    requires n < |s| ==> !In(s[n], k)
    ensures Span(k, s) == n
  {
    if n > 0 {
      SpanUnique(k, s[1..], n - 1);
    }
  }

  /** s without its blanks: what is left of a text once the lexer's whitespace tokens go. */
  function Strip(s: string): (r: string)
    ensures forall c :: c in r ==> c in s && !In(c, Blank)
    ensures |r| <= |s|
  {
    if s == "" then ""
    else if In(s[0], Blank) then Strip(s[1..])
    else [s[0]] + Strip(s[1..])
  }

  lemma {:induction false} StripAppend(a: string, b: string)
    ensures Strip(a + b) == Strip(a) + Strip(b)
  {
    if a == "" {
      assert a + b == b;
    } else {
      assert (a + b)[1..] == a[1..] + b;
      StripAppend(a[1..], b);
    }
  }

  lemma {:induction false} StripKeeps(s: string)
    requires forall c :: c in s ==> !In(c, Blank)
    ensures Strip(s) == s
  {
    if s != "" {
      StripKeeps(s[1..]);
    }
  }

  lemma {:induction false} StripAll(s: string)
    requires forall c :: c in s ==> In(c, Blank)
    ensures Strip(s) == ""
  {
    if s != "" {
      StripAll(s[1..]);
    }
  }

  /** Go's unicode.IsSpace, the set strings.TrimSpace cuts. */
  predicate IsSpace(c: char) {
    || '\t' <= c <= '\r' || c == ' '
    || c in "\U{85}\U{A0}\U{1680}\U{2028}\U{2029}\U{202F}\U{205F}\U{3000}"
    || '\U{2000}' <= c <= '\U{200A}'
  }

  function TrimLeft(s: string): (r: string)
    ensures r != "" ==> !IsSpace(r[0])
    ensures |r| <= |s|
  {
    if s != "" && IsSpace(s[0]) then TrimLeft(s[1..]) else s
  }

  function TrimRight(s: string): (r: string)
    ensures r != "" ==> !IsSpace(r[|r| - 1])
    ensures r <= s
  {
    if s != "" && IsSpace(s[|s| - 1]) then TrimRight(s[..|s| - 1]) else s
  }

  function TrimSpace(s: string): string {
    TrimRight(TrimLeft(s))
  }

  /** Go's strings.Join. */
  function Join(parts: seq<string>, sep: string): string {
    if |parts| == 0 then ""
    else if |parts| == 1 then parts[0]
    else Join(parts[..|parts| - 1], sep) + sep + parts[|parts| - 1]
  }

  lemma JoinSnoc(parts: seq<string>, last: string, sep: string)
    requires parts != []
    ensures Join(parts + [last], sep) == Join(parts, sep) + sep + last
  {
    assert (parts + [last])[..|parts|] == parts;
  }

  /** Decimal rendering and reading of a placeholder's number. */
  function Itoa(n: nat): (s: string)
    ensures s != ""
    ensures forall i :: 0 <= i < |s| ==> IsDigit(s[i])
  {
    var digit := ['0' + (n % 10) as char];
    if n < 10 then digit else Itoa(n / 10) + digit
  }

  function Atoi(s: string): nat
    requires forall i :: 0 <= i < |s| ==> IsDigit(s[i])
  {
    if s == "" then 0
    else
      assert IsDigit(s[|s| - 1]);
      10 * Atoi(s[..|s| - 1]) + (s[|s| - 1] as int - '0' as int)
  }

  lemma {:induction false} AtoiItoa(n: nat)
    ensures Atoi(Itoa(n)) == n
  {
    if n < 10 {
      assert Itoa(n)[..0] == "";
    } else {
      AtoiItoa(n / 10);
      assert Itoa(n)[..|Itoa(n)| - 1] == Itoa(n / 10);
    }
  }

  /** Whether needle occurs in s, starting here or further on. */
  predicate Contains(s: string, needle: string) {
    needle <= s || (s != "" && Contains(s[1..], needle))
  }

  /** How many characters of s are in the given set. */
  function Count(cs: set<char>, s: string): nat {
    if s == "" then 0 else (if s[0] in cs then 1 else 0) + Count(cs, s[1..])
  }

  lemma {:induction false} CountAppend(cs: set<char>, a: string, b: string)
    ensures Count(cs, a + b) == Count(cs, a) + Count(cs, b)
  {
    if a == "" {
      assert a + b == b;
    } else {
      assert (a + b)[1..] == a[1..] + b;
      CountAppend(cs, a[1..], b);
    }
  }

  lemma {:induction false} CountZero(cs: set<char>, s: string)
    ensures Count(cs, s) == 0 <==> forall c :: c in s ==> c !in cs
  {
    if s != "" {
      CountZero(cs, s[1..]);
      assert s == [s[0]] + s[1..];
    }
  }

  /** A string holds at least as many of any characters as its substrings do. */
  lemma {:induction false} ContainsCount(cs: set<char>, s: string, needle: string)
    requires Contains(s, needle)
    ensures Count(cs, needle) <= Count(cs, s)
  {
    if needle <= s {
      CountAppend(cs, needle, s[|needle|..]);
      assert s == needle + s[|needle|..];
    } else {
      ContainsCount(cs, s[1..], needle);
    }
  }
}
