/**
 * The string operations of Rust's standard library that the application
 * relies on: `trim`, `join`, `lines`, `to_lowercase`, `contains`, `pop`,
 * `i32::to_string` and `str::parse::<i32>`.
 */
module Text {
  import opened Wrappers

  /** `char::is_whitespace`: the characters with the Unicode White_Space property. */
  predicate IsWhitespace(c: char) {
    c == ' ' || ('\t' <= c <= '\r') || c == '\U{0085}' || c == '\U{00A0}' || c == '\U{1680}'
    || ('\U{2000}' <= c <= '\U{200A}') || c == '\U{2028}' || c == '\U{2029}'
    || c == '\U{202F}' || c == '\U{205F}' || c == '\U{3000}'
  }

  predicate AllWhitespace(s: string) {
    forall k :: 0 <= k < |s| ==> IsWhitespace(s[k])
  }

  /** No whitespace at either end: what `trim` leaves. */
  predicate IsTrimmed(s: string) {
    s == [] || (!IsWhitespace(s[0]) && !IsWhitespace(s[|s| - 1]))
  }

  function TrimStart(s: string): (r: string)
    ensures |r| <= |s| && r == s[|s| - |r|..]
    ensures r == [] || !IsWhitespace(r[0])
    ensures forall k :: 0 <= k < |s| - |r| ==> IsWhitespace(s[k])
  {
    if s != [] && IsWhitespace(s[0]) then TrimStart(s[1..]) else s
  }

  function TrimEnd(s: string): (r: string)
    ensures |r| <= |s| && r == s[..|r|]
    ensures r == [] || !IsWhitespace(r[|r| - 1])
    ensures forall k :: |r| <= k < |s| ==> IsWhitespace(s[k])
  {
    if s != [] && IsWhitespace(s[|s| - 1]) then TrimEnd(s[..|s| - 1]) else s
  }

  /** `str::trim`: drop the leading and trailing whitespace. */
  function Trim(s: string): (r: string)
    ensures IsTrimmed(r)
    ensures r == [] <==> AllWhitespace(s)
    ensures IsTrimmed(s) ==> r == s
    ensures forall c :: c in r ==> c in s
  {
    var t := TrimStart(s);
    var r := TrimEnd(t);
    assert r != [] ==> r[0] == t[0];
    assert t != [] ==> t[0] == s[|s| - |t|];
    r
  }

  /** `[String]::join(sep)`. */
  function Join(lines: seq<string>, sep: string): string {
    if lines == [] then []
    else if |lines| == 1 then lines[0]
    else lines[0] + sep + Join(lines[1..], sep)
  }

  /** Joining with a separator that is empty or whitespace gives an all-whitespace
      string exactly when every line is all whitespace. */
  lemma {:induction false} JoinAllWhitespace(lines: seq<string>, sep: string)
    requires AllWhitespace(sep)
    ensures AllWhitespace(Join(lines, sep)) <==> forall i :: 0 <= i < |lines| ==> AllWhitespace(lines[i])
  {
    if |lines| > 1 {
      JoinAllWhitespace(lines[1..], sep);
      var rest := Join(lines[1..], sep);
      var j := lines[0] + sep + rest;
      assert forall k :: 0 <= k < |lines[0]| ==> j[k] == lines[0][k];
      assert forall k :: 0 <= k < |rest| ==> j[|lines[0]| + |sep| + k] == rest[k];
      assert forall k :: 0 <= k < |sep| ==> j[|lines[0]| + k] == sep[k];
      assert forall i :: 1 <= i < |lines| ==> lines[i] == lines[1..][i - 1];
      if AllWhitespace(j) {
        assert AllWhitespace(lines[0]);
        assert AllWhitespace(rest);
      } else {
        var k :| 0 <= k < |j| && !IsWhitespace(j[k]);
        if k < |lines[0]| {
          assert !AllWhitespace(lines[0]);
        } else {
          assert k >= |lines[0]| + |sep|;
          assert !IsWhitespace(rest[k - |lines[0]| - |sep|]);
          assert !AllWhitespace(rest);
        }
      }
    }
  }

  function IndexOfNewline(s: string): (k: nat)
    ensures k <= |s|
    ensures k < |s| ==> s[k] == '\n'
    ensures forall i :: 0 <= i < k ==> s[i] != '\n'
  {
    if s == [] || s[0] == '\n' then 0 else 1 + IndexOfNewline(s[1..])
  }

  function StripCarriageReturn(line: string): string {
    if line != [] && line[|line| - 1] == '\r' then line[..|line| - 1] else line
  }

  /** `str::lines`: split at "\n" (a "\r" right before it is dropped too); a final
      line ending does not start another, empty, line, and "" has no lines. */
  function Lines(s: string): seq<string>
    decreases |s|
  {
    if s == [] then []
    else
      var k := IndexOfNewline(s);
      if k == |s| then [s]
      else [StripCarriageReturn(s[..k])] + Lines(s[k + 1..])
  }

  /** Splitting a text into lines and joining them with "\n" again gives the text
      back when it has no carriage return and does not end with a line break. */
  lemma {:induction false} JoinLines(s: string)
    requires '\r' !in s
    requires s == [] || s[|s| - 1] != '\n'
    ensures Join(Lines(s), "\n") == s
    decreases |s|
  {
    if s != [] {
      var k := IndexOfNewline(s);
      if k < |s| {
        var rest := s[k + 1..];
        assert rest != [];
        assert '\r' !in rest by {
          forall c | c in rest ensures c != '\r' { assert c in s; }
        }
        JoinLines(rest);
        assert StripCarriageReturn(s[..k]) == s[..k] by {
          if s[..k] != [] { assert s[..k][k - 1] in s; }
        }
        var k' := IndexOfNewline(rest);
        assert Lines(rest) != [];
        assert s == s[..k] + "\n" + rest;
      }
    }
  }

  /** `String::pop`: remove the last character, if any. */
  function DropLast(s: string): (r: string)
    ensures s == [] ==> r == []
    ensures s != [] ==> r + [s[|s| - 1]] == s
  {
    if s == [] then [] else s[..|s| - 1]
  }

  /** ASCII case mapping of `to_lowercase`. */
  function LowerChar(c: char): char {
    if 'A' <= c <= 'Z' then (c as int + 32) as char else c
  }

  function Lower(s: string): (r: string)
    ensures |r| == |s|
    ensures forall k :: 0 <= k < |s| ==> r[k] == LowerChar(s[k])
  {
    if s == [] then [] else [LowerChar(s[0])] + Lower(s[1..])
  }

  /** `str::contains` for a string pattern: `q` occurs in `s` as a contiguous piece. */
  predicate Contains(s: string, q: string) {
    exists i :: 0 <= i <= |s| - |q| && OccursAt(s, q, i)
  }

  predicate OccursAt(s: string, q: string, i: int) {
    0 <= i <= |s| - |q| && s[i..i + |q|] == q
  }

  lemma ContainsEmpty(s: string)
    ensures Contains(s, "")
  {
    assert OccursAt(s, "", 0);
  }

  // ---------------------------------------------------------------------------
  // Decimal numbers

  predicate IsDigit(c: char) {
    '0' <= c <= '9'
  }

  predicate AllDigits(s: string) {
    forall k :: 0 <= k < |s| ==> IsDigit(s[k])
  }

  function DigitValue(c: char): (v: nat)
    requires IsDigit(c)
    ensures v < 10
  {
    c as int - '0' as int
  }

  function DigitChar(v: nat): (c: char)
    requires v < 10
    ensures IsDigit(c) && DigitValue(c) == v
  {
    ('0' as int + v) as char
  }

  /** The value of a string of decimal digits, most significant first. */
  function DecimalValue(s: string): nat
    requires AllDigits(s)
  {
    if s == [] then 0 else 10 * DecimalValue(s[..|s| - 1]) + DigitValue(s[|s| - 1])
  }

  /** The shortest decimal spelling of `n` (no leading zeros). */
  function NatDigits(n: nat): (s: string)
    ensures s != [] && AllDigits(s) && DecimalValue(s) == n
    ensures n >= 10 ==> s[0] != '0'
  {
    if n < 10 then [DigitChar(n)]
    else
      var front := NatDigits(n / 10);
      var s := front + [DigitChar(n % 10)];
      assert s[..|s| - 1] == front;
      s
  }

  const I32Min: int := -0x8000_0000
  const I32Max: int := 0x7FFF_FFFF

  /** `i32::to_string`. */
  function IntToString(n: int): string {
    if n < 0 then "-" + NatDigits(-n) else NatDigits(n)
  }

  /** `str::parse::<i32>`: an optional "+" or "-" followed by at least one ASCII
      digit, and the value must fit in 32 bits. */
  function ParseI32(s: string): (r: Option<int>)
    ensures r.Some? ==> I32Min <= r.value <= I32Max
    ensures s == [] ==> r == None
    ensures s != [] && !IsDigit(s[0]) && s[0] != '+' && s[0] != '-' ==> r == None
    // Only an optional sign followed by at least one digit, and nothing else, parses.
    ensures r.Some? ==> (s != [] && AllDigits(s)) || (|s| > 1 && (s[0] == '+' || s[0] == '-') && AllDigits(s[1..]))
    // Unsigned digits: parsed exactly when the value fits, and then to that value.
    ensures s != [] && AllDigits(s) ==>
      (r.Some? <==> DecimalValue(s) <= I32Max) && (r.Some? ==> r.value == DecimalValue(s))
    // "+" and digits: the same as the digits alone.
    ensures |s| > 1 && s[0] == '+' && AllDigits(s[1..]) ==>
      (r.Some? <==> DecimalValue(s[1..]) <= I32Max) && (r.Some? ==> r.value == DecimalValue(s[1..]))
    // "-" and digits: the negated value, parsed exactly when it fits.
    ensures |s| > 1 && s[0] == '-' && AllDigits(s[1..]) ==>
      (r.Some? <==> DecimalValue(s[1..]) <= -I32Min) && (r.Some? ==> r.value == -(DecimalValue(s[1..]) as int))
  {
    if s == [] then None
    else
      var digits := if s[0] == '+' || s[0] == '-' then s[1..] else s;
      if digits == [] || !AllDigits(digits) then None
      else
        var v := if s[0] == '-' then -(DecimalValue(digits) as int) else DecimalValue(digits) as int;
        if I32Min <= v <= I32Max then Some(v) else None
  }

  /** Rendering a 32-bit integer in decimal and parsing it back gives the integer. */
  lemma ParseInt32OfToString(n: int)
    requires I32Min <= n <= I32Max
    ensures ParseI32(IntToString(n)) == Some(n)
  {
    if n < 0 {
      var s := IntToString(n);
      assert s[1..] == NatDigits(-n);
    }
  }
}
