/** Text helpers shared by the parsers: splitting, joining, trimming and digits. */
module Text {
  // ---------- searching and splitting ----------

  /** The first index of `c`, or the length when there is none. */
  function Find(s: string, c: char): (i: nat)
    ensures i <= |s| && c !in s[..i] && (i < |s| ==> s[i] == c)
  {
    if s == "" || s[0] == c then 0 else 1 + Find(s[1..], c)
  }

  /** The last index of `c` plus one, or zero when there is none. */
  function AfterLast(s: string, c: char): (i: nat)
    ensures i <= |s| && c !in s[i..] && (i > 0 ==> s[i - 1] == c)
  {
    if s == "" || s[|s| - 1] == c then |s| else AfterLast(s[..|s| - 1], c)
  }

  lemma {:induction false} AfterLastAt(a: string, b: string, c: char)
    requires c !in b && (a == "" || a[|a| - 1] == c)
    ensures AfterLast(a + b, c) == |a|
  {
    if b == "" {
      assert a + b == a;
    } else {
      AfterLastAt(a, b[..|b| - 1], c);
      assert (a + b)[..|a + b| - 1] == a + b[..|b| - 1];
      assert b[|b| - 1] in b;
    }
  }

  predicate StartsAt(s: string, i: nat, part: string) {
    i + |part| <= |s| && s[i..i + |part|] == part
  }

  predicate Contains(s: string, part: string) {
    exists i :: 0 <= i <= |s| && StartsAt(s, i, part)
  }

  /** The pieces between occurrences of `c`. */
  function Split(s: string, c: char): (parts: seq<string>)
    ensures parts != []
  {
    var i := Find(s, c);
    if i == |s| then [s] else [s[..i]] + Split(s[i + 1..], c)
  }

  function Join(parts: seq<string>, c: char): string {
    if parts == [] then ""
    else if |parts| == 1 then parts[0]
    else parts[0] + [c] + Join(parts[1..], c)
  }

  /** The separator is found where it first stands. */
  lemma {:induction false} FindAt(a: string, c: char, b: string)
    requires c !in a && (b == "" || b[0] == c)
    ensures Find(a + b, c) == |a|
  {
    if a == "" {
      assert a + b == b;
    } else {
      FindAt(a[1..], c, b);
      assert (a + b)[1..] == a[1..] + b;
    }
  }

  /** Pieces free of the separator survive joining and splitting. */
  lemma {:induction false} SplitJoin(parts: seq<string>, c: char)
    requires parts != [] && forall p <- parts :: c !in p
    ensures Split(Join(parts, c), c) == parts
  {
    var first := parts[0];
    assert first in parts;
    if |parts| == 1 {
      assert Find(first, c) == |first|;
      assert Split(first, c) == [first];
    } else {
      var rest := Join(parts[1..], c);
      var s := first + [c] + rest;
      FindAt(first, c, [c] + rest);
      assert s == first + ([c] + rest) && s[..|first|] == first && s[|first| + 1..] == rest;
      assert Split(s, c) == [first] + Split(rest, c);
      SplitJoin(parts[1..], c);
    }
  }

  /** Splitting and joining again gives the text back. */
  lemma {:induction false} JoinSplit(s: string, c: char)
    ensures Join(Split(s, c), c) == s
    ensures forall p <- Split(s, c) :: c !in p
    decreases |s|
  {
    var i := Find(s, c);
    if i < |s| {
      JoinSplit(s[i + 1..], c);
      assert s == s[..i] + [c] + s[i + 1..];
    }
  }

  // ---------- trimming and case ----------

  /** White space and line terminators as String.prototype.trim has them. */
  predicate IsSpace(c: char) {
    || c == ' ' || '\t' <= c <= '\r' || c == '\U{00A0}' || c == '\U{1680}' || '\U{2000}' <= c <= '\U{200A}'
    || c == '\U{2028}' || c == '\U{2029}' || c == '\U{202F}' || c == '\U{205F}' || c == '\U{3000}' || c == '\U{FEFF}'
  }

  function TrimStart(s: string): string {
    if s != "" && IsSpace(s[0]) then TrimStart(s[1..]) else s
  }

  function TrimEnd(s: string): string {
    if s != "" && IsSpace(s[|s| - 1]) then TrimEnd(s[..|s| - 1]) else s
  }

  function Trim(s: string): string {
    TrimEnd(TrimStart(s))
  }

  /** Non-empty, with no white space at either end. */
  predicate Trimmed(s: string) {
    s != "" && !IsSpace(s[0]) && !IsSpace(s[|s| - 1])
  }

  lemma TrimTrimmed(s: string)
    requires Trimmed(s)
    ensures Trim(s) == s
  {
  }

  function LowerChar(c: char): char {
    if 'A' <= c <= 'Z' then c - 'A' + 'a' else c
  }

  function Lower(s: string): (l: string)
    ensures |l| == |s| && forall i :: 0 <= i < |s| ==> l[i] == LowerChar(s[i])
  {
    if s == "" then "" else [LowerChar(s[0])] + Lower(s[1..])
  }

  // ---------- digits ----------

  /** The value of a digit in any base up to 16, or 16 for any other character. */
  function DigitValue(c: char): nat {
    if '0' <= c <= '9' then (c - '0') as nat
    else if 'a' <= c <= 'f' then (c - 'a') as nat + 10
    else if 'A' <= c <= 'F' then (c - 'A') as nat + 10
    else 16
  }

  function DigitChar(v: nat): char
    requires v < 16
  {
    "0123456789abcdef"[v]
  }

  predicate Digits(s: string, base: nat) {
    forall c <- s :: DigitValue(c) < base
  }

  /** The number that digits of a base denote. */
  function Number(s: string, base: nat): nat {
    if s == "" then 0 else Number(s[..|s| - 1], base) * base + DigitValue(s[|s| - 1])
  }

  /** The shortest digits of a number, in lower case. */
  function Print(n: nat, base: nat): (s: string)
    requires 2 <= base <= 16
    ensures s != ""
  {
    if n < base then [DigitChar(n)] else Print(n / base, base) + [DigitChar(n % base)]
  }

  lemma DigitCharValue(v: nat)
    requires v < 16
    ensures DigitValue(DigitChar(v)) == v
  {
    assert v < 10 ==> DigitChar(v) == '0' + v as char;
    assert v >= 10 ==> DigitChar(v) == 'a' + (v - 10) as char;
  }

  lemma {:induction false} NumberAppend(s: string, c: char, base: nat)
    ensures Number(s + [c], base) == Number(s, base) * base + DigitValue(c)
  {
    assert (s + [c])[..|s|] == s;
  }

  /** Appending the last digit of a number to the digits of the rest gives its digits. */
  lemma {:induction false} LastDigit(n: nat, s: string, base: nat)
    requires base == 10 || base == 16
    requires Number(s, base) == n / base && Digits(s, base)
    ensures Number(s + [DigitChar(n % base)], base) == n && Digits(s + [DigitChar(n % base)], base)
  {
    var d := n % base;
    DigitCharValue(d);
    NumberAppend(s, DigitChar(d), base);
    if base == 10 {
      assert n / 10 * 10 + n % 10 == n;
    } else {
      assert n / 16 * 16 + n % 16 == n;
    }
  }

  lemma {:induction false} OneDigit(n: nat, base: nat)
    requires (base == 10 || base == 16) && n < base
    ensures Digits(Print(n, base), base) && Number(Print(n, base), base) == n
  {
    DigitCharValue(n);
    NumberAppend("", DigitChar(n), base);
    assert "" + [DigitChar(n)] == [DigitChar(n)];
  }

  lemma RestIsLess(n: nat, base: nat)
    requires (base == 10 || base == 16) && n >= base
    ensures n / base < n
  {
    assert base == 10 ==> n / 10 < n;
  }

  lemma {:induction false} NumberPrint(n: nat, base: nat)
    requires base == 10 || base == 16
    ensures Digits(Print(n, base), base) && Number(Print(n, base), base) == n
  {
    if n < base {
      OneDigit(n, base);
    } else {
      RestIsLess(n, base);
      var rest := n / base;
      NumberPrint(rest, base);
      LastDigit(n, Print(rest, base), base);
    }
  }
}
