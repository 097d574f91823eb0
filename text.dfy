/**
 * The handful of string operations from Go's `strings` and `fmt` packages that
 * the core relies on, restricted to ASCII: whitespace is the six ASCII space
 * characters and upper-casing touches only 'a'..'z'.
 */
module Text {

  import opened Wrappers

  /** ASCII white space as `unicode.IsSpace` sees it: tab, LF, VT, FF, CR, space. */
  predicate IsSpace(c: char) {
    c == ' ' || c == '\t' || c == '\n' || c == '\r' || c == '\U{000B}' || c == '\U{000C}'
  }

  predicate NoSpace(s: string) {
    forall i :: 0 <= i < |s| ==> !IsSpace(s[i])
  }

  /** No space at either end: what `strings.TrimSpace` guarantees of its result. */
  predicate Trimmed(s: string) {
    s == [] || (!IsSpace(s[0]) && !IsSpace(s[|s| - 1]))
  }

  predicate HasPrefix(s: string, prefix: string) {
    |prefix| <= |s| && s[..|prefix|] == prefix
  }

  /** Starting with a string means starting with each of its prefixes. */
  lemma PrefixOfPrefix(s: string, long: string, short: string)
    requires HasPrefix(long, short)
    ensures HasPrefix(s, long) ==> HasPrefix(s, short)
  {
    if HasPrefix(s, long) {
      assert s[..|short|] == s[..|long|][..|short|];
    }
  }

  /** `strings.TrimPrefix`: drops `prefix` when `s` starts with it. */
  function TrimPrefix(s: string, prefix: string): (r: string)
    ensures HasPrefix(s, prefix) ==> prefix + r == s
    ensures !HasPrefix(s, prefix) ==> r == s
  {
    if HasPrefix(s, prefix) then
      assert s == s[..|prefix|] + s[|prefix|..];
      s[|prefix|..]
    else s
  }

  /** Dropping a prefix that was just put in front gives back the rest. */
  lemma TrimPrefixConcat(prefix: string, s: string)
    ensures HasPrefix(prefix + s, prefix) && TrimPrefix(prefix + s, prefix) == s
  {
    assert (prefix + s)[..|prefix|] == prefix;
    assert (prefix + s)[|prefix|..] == s;
  }

  /** Drops leading white space. */
  function TrimLeft(s: string): (r: string)
    ensures |r| <= |s| && r == s[|s| - |r|..]
    ensures r == [] || !IsSpace(r[0])
    ensures forall i :: 0 <= i < |s| - |r| ==> IsSpace(s[i])
  {
    if s != [] && IsSpace(s[0]) then TrimLeft(s[1..]) else s
  }

  /** Drops trailing white space. */
  function TrimRight(s: string): (r: string)
    ensures |r| <= |s| && r == s[..|r|]
    ensures r == [] || !IsSpace(r[|r| - 1])
    ensures forall i :: |r| <= i < |s| ==> IsSpace(s[i])
  {
    if s != [] && IsSpace(s[|s| - 1]) then TrimRight(s[..|s| - 1]) else s
  }

  /** `strings.TrimSpace` over ASCII white space. */
  function TrimSpace(s: string): (r: string)
    ensures Trimmed(r)
    ensures |r| <= |s|
    ensures Trimmed(s) ==> r == s
  {
    TrimRight(TrimLeft(s))
  }

  /** The longest prefix of `s` free of white space. */
  function Word(s: string): (w: string)
    ensures |w| <= |s| && w == s[..|w|]
    ensures NoSpace(w)
    ensures |w| == |s| || IsSpace(s[|w|])
    ensures s != [] && !IsSpace(s[0]) ==> |w| >= 1
  {
    if s == [] || IsSpace(s[0]) then [] else [s[0]] + Word(s[1..])
  }

  /** `strings.Fields`: the maximal runs of non-space characters, in order. */
  function Fields(s: string): (fs: seq<string>)
    ensures |fs| <= |s|
    decreases |s|
  {
    var t := TrimLeft(s);
    if t == [] then []
    else
      var w := Word(t);
      [w] + Fields(t[|w|..])
  }

  /** Every field is a non-empty run free of white space. */
  lemma {:induction false} FieldIsWord(s: string, k: nat)
    requires k < |Fields(s)|
    ensures Fields(s)[k] != [] && NoSpace(Fields(s)[k])
    decreases |s|
  {
    var t := TrimLeft(s);
    assert t != [];
    var w := Word(t);
    var rest := Fields(t[|w|..]);
    assert Fields(s) == [w] + rest;
    if k > 0 {
      assert Fields(s)[k] == rest[k - 1];
      FieldIsWord(t[|w|..], k - 1);
    }
  }

  /** `len(strings.Fields(s)) >= 1 && strings.Fields(s)[0] == word`, stated without the field list. */
  predicate FirstFieldIs(s: string, word: string) {
    var t := TrimLeft(s);
    t != [] && Word(t) == word
  }

  /** The first element of the field list is the first word after the leading space. */
  lemma FieldsHead(s: string, word: string)
    ensures (|Fields(s)| >= 1 && Fields(s)[0] == word) <==> FirstFieldIs(s, word)
  {
  }

  /** A run with a non-space character keeps one after trimming. */
  lemma TrimSpaceNonEmpty(s: string, k: nat)
    requires k < |s| && !IsSpace(s[k])
    ensures TrimSpace(s) != []
  {
    var u := TrimLeft(s);
    assert u != [];
    assert !IsSpace(u[0]);
  }

  /** Trimming leaves a string alone when its first and last characters are not space. */
  lemma TrimSpaceOfTrimmed(s: string)
    requires Trimmed(s)
    ensures TrimSpace(s) == s
  {
  }

  /** Trimming drops a single leading space before a trimmed non-empty string. */
  lemma TrimSpaceLeadingSpace(s: string)
    requires s != [] && Trimmed(s)
    ensures TrimSpace(" " + s) == s
  {
    assert (" " + s)[1..] == s;
  }

  /** The first field of a word followed by white space (or nothing) is that word. */
  lemma {:induction false} WordOfConcat(w: string, rest: string)
    requires NoSpace(w)
    requires rest == [] || IsSpace(rest[0])
    ensures Word(w + rest) == w
  {
    if w == [] {
      assert w + rest == rest;
    } else {
      assert (w + rest)[0] == w[0];
      assert (w + rest)[1..] == w[1..] + rest;
      WordOfConcat(w[1..], rest);
    }
  }

  /** A non-empty word followed by white space (or nothing) is the first field. */
  lemma FirstFieldOfConcat(w: string, rest: string)
    requires w != [] && NoSpace(w)
    requires rest == [] || IsSpace(rest[0])
    ensures FirstFieldIs(w + rest, w)
  {
    assert (w + rest)[0] == w[0];
    WordOfConcat(w, rest);
  }

  /** `strings.Join`. */
  function Join(parts: seq<string>, sep: string): (r: string)
    ensures |parts| == 1 ==> r == parts[0]
  {
    if |parts| == 0 then ""
    else if |parts| == 1 then parts[0]
    else parts[0] + sep + Join(parts[1..], sep)
  }

  /** Joining one more part appends the separator and that part. */
  lemma {:induction false} JoinSnoc(parts: seq<string>, x: string, sep: string)
    requires |parts| >= 1
    ensures Join(parts + [x], sep) == Join(parts, sep) + sep + x
  {
    if |parts| == 1 {
      assert parts + [x] == [parts[0], x];
      assert ([parts[0], x])[1..] == [x];
    } else {
      assert (parts + [x])[1..] == parts[1..] + [x];
      JoinSnoc(parts[1..], x, sep);
    }
  }

  predicate IsLower(c: char) { 'a' <= c <= 'z' }

  predicate NoLower(s: string) {
    forall i :: 0 <= i < |s| ==> !IsLower(s[i])
  }

  function UpperChar(c: char): (u: char)
    ensures !IsLower(u)
    ensures !IsLower(c) ==> u == c
  {
    if IsLower(c) then (c as int - 32) as char else c
  }

  /** `strings.ToUpper` over ASCII letters. */
  function ToUpper(s: string): (r: string)
    ensures |r| == |s|
    ensures forall i :: 0 <= i < |s| ==> r[i] == UpperChar(s[i])
    ensures NoLower(r)
  {
    if s == [] then [] else [UpperChar(s[0])] + ToUpper(s[1..])
  }

  /** `strings.Index` for a single character: the first position of `c`, or -1. */
  function IndexOf(s: string, c: char): (idx: int)
    ensures -1 <= idx < |s|
    ensures idx >= 0 ==> s[idx] == c && forall k :: 0 <= k < idx ==> s[k] != c
    ensures idx == -1 ==> forall k :: 0 <= k < |s| ==> s[k] != c
  {
    if s == [] then -1
    else if s[0] == c then 0
    else
      var i := IndexOf(s[1..], c);
      if i < 0 then -1 else i + 1
  }

  predicate IsDigit(c: char) { '0' <= c <= '9' }

  predicate AllDigits(s: string) {
    forall i :: 0 <= i < |s| ==> IsDigit(s[i])
  }

  function DigitChar(d: nat): (c: char)
    requires d < 10
    ensures IsDigit(c) && c as int - '0' as int == d
  {
    ('0' as int + d) as char
  }

  /** The value of a run of decimal digits (0 for the empty run). */
  function ParseNat(s: string): nat
    requires AllDigits(s)
  {
    if s == [] then 0 else 10 * ParseNat(s[..|s| - 1]) + (s[|s| - 1] as int - '0' as int)
  }

  /** Reads back what `IntToString` writes: an optional '-' and a non-empty digit run. */
  function ParseInt(s: string): Option<int> {
    if |s| >= 2 && s[0] == '-' && AllDigits(s[1..]) then Some(0 - ParseNat(s[1..]))
    else if |s| >= 1 && AllDigits(s) then Some(ParseNat(s))
    else None
  }

  /** A decimal numeral without redundant leading zeros: non-empty, digits only, `0` only as itself. */
  predicate CanonicalDecimal(s: string) {
    |s| >= 1 && AllDigits(s) && (s[0] == '0' ==> s == "0")
  }

  /** A canonical numeral, or a '-' before a canonical numeral other than `0`. */
  predicate CanonicalInt(s: string) {
    CanonicalDecimal(s) || (|s| >= 2 && s[0] == '-' && CanonicalDecimal(s[1..]) && s[1..] != "0")
  }

  /** Decimal rendering of a natural number, as `%v` prints it. */
  function NatToString(n: nat): (r: string)
    ensures CanonicalDecimal(r)
    ensures r == "0" <==> n == 0
    ensures ParseNat(r) == n
  {
    if n < 10 then [DigitChar(n)]
    else
      var prefix := NatToString(n / 10);
      var r := prefix + [DigitChar(n % 10)];
      assert r[..|r| - 1] == prefix;
      r
  }

  /** Decimal rendering of an integer, as `%v` prints it: a '-' before negatives. */
  function IntToString(i: int): (r: string)
    ensures CanonicalInt(r)
    ensures ParseInt(r) == Some(i)
  {
    if i < 0 then
      var digits := NatToString(-i);
      assert ("-" + digits)[1..] == digits;
      "-" + digits
    else NatToString(i)
  }

  /** A numeral with a non-zero leading digit is at least 1, and at least 10 when it has two digits or more. */
  lemma {:induction false} ParseNatLeading(s: string)
    requires |s| >= 1 && AllDigits(s) && s[0] != '0'
    ensures ParseNat(s) >= 1
    ensures |s| >= 2 ==> ParseNat(s) >= 10
  {
    if |s| >= 2 {
      var prefix := s[..|s| - 1];
      assert prefix[0] == s[0];
      ParseNatLeading(prefix);
    }
  }

  /** Rendering what a canonical numeral reads as gives back that numeral. */
  lemma {:induction false} NatToStringOfParse(s: string)
    requires CanonicalDecimal(s)
    ensures NatToString(ParseNat(s)) == s
  {
    if |s| >= 2 {
      var prefix := s[..|s| - 1];
      var d := s[|s| - 1] as int - '0' as int;
      assert prefix[0] == s[0];
      ParseNatLeading(s);
      ParseNatLeading(prefix);
      var n := ParseNat(s);
      assert n == 10 * ParseNat(prefix) + d;
      assert n / 10 == ParseNat(prefix) && n % 10 == d;
      NatToStringOfParse(prefix);
      assert s == prefix + [DigitChar(d)];
    }
  }

  /**
   * Every canonical integer text is the rendering of the integer it reads as,
   * so the rendering is the only canonical text of its value.
   */
  lemma IntToStringOfParse(s: string)
    requires CanonicalInt(s)
    ensures ParseInt(s).Some? && IntToString(ParseInt(s).value) == s
  {
    if CanonicalDecimal(s) {
      NatToStringOfParse(s);
    } else {
      var t := s[1..];
      assert s == "-" + t;
      ParseNatLeading(t);
      NatToStringOfParse(t);
    }
  }
}
