/** The texts that expand are exactly the written forms: what malformed text gives is nothing. */
module IPv6Texts {
  import opened Text
  import opened Wrappers
  import opened IPv6

  // ---------- octets as printed ----------

  lemma PrintDigit(c: char)
    requires DigitValue(c) < 10
    ensures DigitChar(DigitValue(c)) == c
  {
    var v := (c - '0') as nat;
    assert DigitChar(v) == '0' + v as char;
  }

  lemma NumberLast(s: string)
    requires s != "" && Digits(s, 10)
    ensures var before, last := s[..|s| - 1], s[|s| - 1];
      && Digits(before, 10) && DigitValue(last) < 10
      && Number(s, 10) / 10 == Number(before, 10) && Number(s, 10) % 10 == DigitValue(last)
  {
    assert s[|s| - 1] in s;
  }

  lemma {:induction false} NumberPositive(s: string)
    requires s != "" && Digits(s, 10) && s[0] != '0'
    ensures Number(s, 10) > 0
    decreases |s|
  {
    assert s[0] in s;
    if |s| == 1 {
      assert s[..0] == "" && DigitValue(s[0]) > 0;
    } else {
      NumberLast(s);
      NumberPositive(s[..|s| - 1]);
    }
  }

  /** Digits without a leading zero are the print of their number. */
  lemma {:induction false} PrintNumber(s: string)
    requires s != "" && Digits(s, 10) && (|s| > 1 ==> s[0] != '0')
    ensures Print(Number(s, 10), 10) == s
    decreases |s|
  {
    NumberLast(s);
    PrintDigit(s[|s| - 1]);
    if |s| == 1 {
      assert Number(s[..0], 10) == 0;
    } else {
      var before := s[..|s| - 1];
      NumberPositive(before);
      PrintNumber(before);
      assert s == before + [s[|s| - 1]];
    }
  }

  /** The quad of an IPv4 text. */
  lemma QuadOf(v4: string) returns (q: Quad)
    requires IsIPv4(v4)
    ensures var o := Split(v4, '.');
      && IsQuad(q) && Dotted(q) == v4
      && q == Quad(Number(o[0], 10), Number(o[1], 10), Number(o[2], 10), Number(o[3], 10))
  {
    var o := Split(v4, '.');
    JoinSplit(v4, '.');
    q := QuadOfParts(o);
  }

  lemma {:induction false} OctetPrinted(o: string)
    requires IsOctet(o)
    ensures Number(o, 10) < 256 && Print(Number(o, 10), 10) == o
  {
    PrintNumber(o);
  }

  lemma QuadOfParts(o: seq<string>) returns (q: Quad)
    requires |o| == 4 && forall p <- o :: IsOctet(p)
    ensures IsQuad(q) && Dotted(q) == Join(o, '.')
    ensures q == Quad(Number(o[0], 10), Number(o[1], 10), Number(o[2], 10), Number(o[3], 10))
  {
    assert o[0] in o && o[1] in o && o[2] in o && o[3] in o;
    q := Quad(Number(o[0], 10), Number(o[1], 10), Number(o[2], 10), Number(o[3], 10));
    OctetPrinted(o[0]);
    OctetPrinted(o[1]);
    OctetPrinted(o[2]);
    OctetPrinted(o[3]);
    assert o == [o[0], o[1], o[2], o[3]];
  }

  // ---------- texts of words ----------

  lemma HalfJoined(half: string)
    ensures Join(Words(half), ':') == half
  {
    if half != "" {
      JoinSplit(half, ':');
    }
  }

  /** Two halves and what stands between them, or a text without `::`. */
  lemma {:induction false} HalvesJoined(text: string)
    ensures var halves := SplitDouble(text);
      && (|halves| == 1 ==> halves[0] == text)
      && (|halves| == 2 ==> text == halves[0] + "::" + halves[1])
  {
    var i := FindDouble(text);
    if i < |text| {
      assert text == text[..i] + "::" + text[i + 2..];
    }
  }

  /** A text without dots that expands is words, with `::` or without. */
  lemma PlainText(text: string) returns (f: Form)
    requires RawWords(text).Some? && forall w <- RawWords(text).value :: IsWord(w)
    ensures WellFormed(f) && f.dotted.None? && f.zone.None? && Body(f) == text
  {
    var halves := SplitDouble(text);
    HalvesJoined(text);
    HalfJoined(halves[0]);
    var head := Words(halves[0]);
    if |halves| == 1 {
      f := Form(head, false, [], None, None);
      assert head + [] == head;
    } else {
      var tail := Words(halves[1]);
      HalfJoined(halves[1]);
      f := Form(head, true, tail, None, None);
      var zeros := Zeros(8 - |head| - |tail|);
      assert forall w :: w in head || w in tail ==> w in head + zeros + tail;
      assert tail + [] == tail;
    }
  }

  // ---------- a dotted tail ----------

  /** The first separator of a text is that of its beginning. */
  lemma {:induction false} FindBefore(a: string, b: string, c: char)
    ensures Find(a + [c] + b, c) == Find(a, c)
  {
    var i := Find(a, c);
    var rest := a[i..] + [c] + b;
    assert a + [c] + b == a[..i] + rest;
    FindAt(a[..i], c, rest);
  }

  lemma {:induction false} SplitWhole(b: string, c: char)
    requires c !in b
    ensures Split(b, c) == [b]
  {
    FindAt(b, c, "");
    assert b + "" == b;
  }

  lemma {:induction false} SplitStep(s: string, c: char, i: nat, rest: string)
    requires i < |s| && Find(s, c) == i && rest == s[i + 1..]
    ensures Split(s, c) == [s[..i]] + Split(rest, c)
  {
  }

  lemma {:induction false} SplitAppend(a: string, b: string, c: char)
    requires c !in b
    ensures Split(a + [c] + b, c) == Split(a, c) + [b]
    decreases |a|
  {
    var s := a + [c] + b;
    var i := Find(a, c);
    FindBefore(a, b, c);
    if i == |a| {
      SplitStep(s, c, i, b);
      SplitWhole(b, c);
      assert s[..i] == a && Split(a, c) == [a];
    } else {
      var rest := a[i + 1..];
      CutBefore(a, b, c, i);
      SplitAppend(rest, b, c);
      SplitStep(a, c, i, rest);
      SplitStep(s, c, i, rest + [c] + b);
      AppendOne([a[..i]], Split(rest, c), b);
    }
  }

  lemma CutBefore(a: string, b: string, c: char, i: nat)
    requires i < |a|
    ensures (a + [c] + b)[..i] == a[..i] && (a + [c] + b)[i + 1..] == a[i + 1..] + [c] + b
  {
  }

  lemma AppendOne(a: seq<string>, b: seq<string>, x: string)
    ensures a + (b + [x]) == a + b + [x]
  {
  }

  /** The words of a text that ends in a colon, or of nothing. */
  function WordsBefore(v: string): seq<string> {
    if v == "" then [] else Split(v[..|v| - 1], ':')
  }

  lemma BeforeWords(v: string)
    requires v == "" || v[|v| - 1] == ':'
    ensures Before(WordsBefore(v)) == v
  {
    if v != "" {
      JoinSplit(v[..|v| - 1], ':');
      assert v == v[..|v| - 1] + ":";
    }
  }

  lemma {:induction false} SplitTwo(high: string, low: string)
    requires ':' !in high && ':' !in low
    ensures Split(high + ":" + low, ':') == [high, low]
  {
    SplitAppend(high, low, ':');
    SplitWhole(high, ':');
  }

  lemma {:induction false} SplitMore(start: string, first: string, text: string, high: string, low: string)
    requires ':' !in high && ':' !in low && first == start + [':'] + high && text == first + [':'] + low
    ensures Split(text, ':') == Split(start, ':') + [high, low]
  {
    SplitAppend(start, high, ':');
    SplitAppend(first, low, ':');
    assert Split(start, ':') + [high] + [low] == Split(start, ':') + [high, low];
  }

  /** A half that ends in the two words of a dotted tail. */
  lemma HalfEnds(v: string, high: string, low: string)
    requires (v == "" || v[|v| - 1] == ':') && ':' !in high && ':' !in low
    ensures Words(v + (high + ":" + low)) == WordsBefore(v) + [high, low]
  {
    if v == "" {
      SplitTwo(high, low);
      assert v + (high + ":" + low) == high + ":" + low;
    } else {
      var start := v[..|v| - 1];
      assert v + (high + ":" + low) == start + [':'] + high + [':'] + low;
      SplitMore(start, start + [':'] + high, v + (high + ":" + low), high, low);
    }
  }

  /** No `::` reaches into a tail that has a single colon inside. */
  lemma TailHasNoDouble(u: string, high: string, low: string)
    requires high != "" && ':' !in high && ':' !in low
    ensures forall i: nat :: |u| <= i + 1 ==> !DoubleAt(u + (high + ":" + low), i)
  {
    var t := high + ":" + low;
    var s := u + t;
    forall i: nat | |u| <= i + 1 < |s|
      ensures !DoubleAt(s, i)
    {
      var j := i + 1 - |u|;
      assert s[i + 1] == t[j] && (j > 0 ==> s[i] == t[j - 1]);
      if j < |high| {
        assert t[j] in high;
      } else if j == |high| {
        assert t[j - 1] in high;
      } else {
        assert t[j] in low;
      }
    }
  }

  /** So it stands before the tail. */
  lemma DoubleBefore(u: string, high: string, low: string, x: string, y: string)
    requires high != "" && ':' !in high && ':' !in low
    requires u + (high + ":" + low) == x + "::" + y
    ensures |x| + 2 <= |u| && u == x + "::" + u[|x| + 2..] && y == u[|x| + 2..] + (high + ":" + low)
  {
    var s := u + (high + ":" + low);
    TailHasNoDouble(u, high, low);
    assert s[|x|] == ':' && s[|x| + 1] == ':' && s[..|x|] == x && s[|x| + 2..] == y;
    assert DoubleAt(s, |x|);
    assert s[..|u|] == u;
  }

  lemma {:induction false} HexPrint(n: nat)
    requires n < 0x10000
    ensures IsWord(Print(n, 16)) && ':' !in Print(n, 16)
  {
    PrintWord(n);
    DigitsHaveNo([Print(n, 16)], 16, ':');
  }

  /** A text before its dotted tail, with `::` in it. */
  lemma CompressedText(x: string, v: string, q: Quad, raw: seq<string>) returns (f: Form)
    requires (v == "" || v[|v| - 1] == ':') && IsQuad(q) && (forall w <- raw :: IsWord(w))
    requires var words := WordsBefore(v) + QuadWords(Some(q));
      |Words(x)| + |words| <= 8 && raw == Words(x) + Zeros(8 - |Words(x)| - |words|) + words
    ensures WellFormed(f) && f.zone.None? && Body(f) == x + "::" + v + Dotted(q)
  {
    f := WithTail(Words(x), true, v, q, raw);
    BodyEnds(f, q);
    BeforeWords(v);
    HalfJoined(x);
  }

  /** And without. */
  lemma FullText(u: string, q: Quad, raw: seq<string>) returns (f: Form)
    requires (u == "" || u[|u| - 1] == ':') && IsQuad(q) && (forall w <- raw :: IsWord(w))
    requires |raw| == 8 && raw == WordsBefore(u) + QuadWords(Some(q))
    ensures WellFormed(f) && f.zone.None? && Body(f) == u + Dotted(q)
  {
    f := WithTail([], false, u, q, raw);
    BodyEnds(f, q);
    BeforeWords(u);
  }

  lemma {:induction false} RawOfOne(text: string, x: string)
    requires SplitDouble(text) == [x] && RawWords(text).Some?
    ensures RawWords(text).value == Words(x) && |Words(x)| == 8
  {
  }

  lemma {:induction false} RawOfTwo(text: string, x: string, y: string)
    requires SplitDouble(text) == [x, y] && RawWords(text).Some?
    ensures |Words(x)| + |Words(y)| <= 8
    ensures RawWords(text).value == Words(x) + Zeros(8 - |Words(x)| - |Words(y)|) + Words(y)
  {
  }

  /** A text before its dotted tail, where the text with the tail folded is words. */
  lemma DottedText(u: string, q: Quad) returns (f: Form)
    requires (u == "" || u[|u| - 1] == ':') && IsQuad(q)
    requires var raw := RawWords(u + TwoWords(q.a, q.b, q.c, q.d)); raw.Some? && forall w <- raw.value :: IsWord(w)
    ensures WellFormed(f) && f.zone.None? && Body(f) == u + Dotted(q)
  {
    var high, low := Print(q.a * 256 + q.b, 16), Print(q.c * 256 + q.d, 16);
    HexPrint(q.a * 256 + q.b);
    HexPrint(q.c * 256 + q.d);
    f := FoldedText(u, q, high, low, u + (high + ":" + low));
  }

  lemma FoldedText(u: string, q: Quad, high: string, low: string, text: string) returns (f: Form)
    requires (u == "" || u[|u| - 1] == ':') && IsQuad(q) && QuadWords(Some(q)) == [high, low]
    requires high != "" && ':' !in high && ':' !in low && text == u + (high + ":" + low)
    requires RawWords(text).Some? && forall w <- RawWords(text).value :: IsWord(w)
    ensures WellFormed(f) && f.zone.None? && Body(f) == u + Dotted(q)
  {
    var halves := SplitDouble(text);
    HalvesJoined(text);
    if |halves| == 1 {
      RawOfOne(text, halves[0]);
      HalfEnds(u, high, low);
      f := FullText(u, q, RawWords(text).value);
    } else {
      var x := halves[0];
      DoubleBefore(u, high, low, x, halves[1]);
      var v := u[|x| + 2..];
      RawOfTwo(text, x, halves[1]);
      HalfEnds(v, high, low);
      f := CompressedText(x, v, q, RawWords(text).value);
      assert u + Dotted(q) == x + "::" + v + Dotted(q);
    }
  }

  /** The form whose last written words are those before the dotted tail. */
  lemma WithTail(head: seq<string>, compressed: bool, v: string, q: Quad, raw: seq<string>) returns (f: Form)
    requires IsQuad(q) && (forall w <- raw :: IsWord(w)) && |raw| == 8
    requires var words := WordsBefore(v) + QuadWords(Some(q));
      if compressed then |head| + |words| <= 8 && raw == head + Zeros(8 - |head| - |words|) + words
      else head == [] && raw == words
    ensures f == Form(if compressed then head else WordsBefore(v), compressed, if compressed then WordsBefore(v)
      else [],
                      Some(q), None)
    ensures WellFormed(f)
  {
    var before := WordsBefore(v);
    f := Form(if compressed then head else before, compressed, if compressed then before else [], Some(q), None);
    assert forall w :: w in head || w in before ==> w in raw;
  }

  // ---------- the converse ----------

  /** What folding makes of the text before a quad and of the quad. */
  lemma {:induction false} FoldedAt(text: string, cut: nat, v4: string)
    requires '.' in text && FoldTail(text).Some? && cut == AfterLast(text, ':') && v4 == text[cut..]
    ensures IsIPv4(v4)
    ensures var o := Split(v4, '.');
      FoldTail(text).value ==
      text[..cut] + TwoWords(Number(o[0], 10), Number(o[1], 10), Number(o[2], 10), Number(o[3], 10))
  {
  }

  lemma {:induction false} CutAfter(text: string, cut: nat)
    requires cut == AfterLast(text, ':')
    ensures text == text[..cut] + text[cut..] && (text[..cut] == "" || text[..cut][|text[..cut]| - 1] == ':')
  {
  }

  /** The form of a text without a zone. */
  lemma ReadForm(text: string) returns (f: Form)
    requires var folded := FoldTail(text);
      folded.Some? && RawWords(folded.value).Some? && forall w <- RawWords(folded.value).value :: IsWord(w)
    ensures WellFormed(f) && f.zone.None? && Body(f) == text
  {
    if '.' !in text {
      f := PlainText(text);
    } else {
      var cut := AfterLast(text, ':');
      var v4 := text[cut..];
      FoldedAt(text, cut, v4);
      var q := QuadOf(v4);
      CutAfter(text, cut);
      f := DottedText(text[..cut], q);
    }
  }

  /** The form of a text that expands. */
  lemma FormOf(ip: string) returns (f: Form)
    requires Expand(ip).Some?
    ensures WellFormed(f) && Written(f) == ip
  {
    var i := Find(ip, '%');
    var plain := ReadForm(ip[..i]);
    f := plain.(zone := if i == |ip| then None else Some(ip[i + 1..]));
    ZoneAdded(ip, i, plain, f);
  }

  lemma ZoneAdded(ip: string, i: nat, plain: Form, f: Form)
    requires i <= |ip| && (i < |ip| ==> ip[i] == '%') && WellFormed(plain) && Body(plain) == ip[..i]
    requires f == plain.(zone := if i == |ip| then None else Some(ip[i + 1..]))
    ensures WellFormed(f) && Written(f) == ip
  {
    assert Body(f) == Body(plain);
    assert ip == ip[..i] + ip[i..] && (i < |ip| ==> ip[i..] == "%" + ip[i + 1..]);
  }

  /** What expands is a written form, and what it expands to is what that form denotes; so a text that is
      no written form of an address gives nothing. */
  lemma ExpandsOnlyForms(ip: string)
    ensures Expand(ip).Some? <==> exists f :: WellFormed(f) && Written(f) == ip
    ensures forall f :: WellFormed(f) && Written(f) == ip ==> Expand(ip) == Some(Denoted(f))
  {
    forall f | WellFormed(f) && Written(f) == ip
      ensures Expand(ip) == Some(Denoted(f))
    {
      IPv6RoundTrip(f);
    }
    if Expand(ip).Some? {
      var f := FormOf(ip);
    }
  }
}
