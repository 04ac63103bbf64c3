/** IPv6 text: expansion to eight groups, its round trip with every written form of section 2.2 of
    RFC 4291, and the address verdicts of the fetch guard. */
module IPv6 {
  import opened Sequences
  import opened Text
  import opened Wrappers

  // ---------- the code ----------

  predicate DoubleAt(s: string, i: nat) {
    i + 1 < |s| && s[i] == ':' && s[i + 1] == ':'
  }

  function FindDouble(s: string): (i: nat)
    ensures i <= |s| && (forall k: nat :: k < i ==> !DoubleAt(s, k)) && (i < |s| ==> DoubleAt(s, i))
  {
    if s == "" then 0
    else if DoubleAt(s, 0) then 0
    else
      var rest := FindDouble(s[1..]);
      assert forall k: nat :: 0 < k ==> (DoubleAt(s, k) <==> DoubleAt(s[1..], k - 1));
      1 + rest
  }

  /** The pieces between occurrences of `::`. */
  function SplitDouble(s: string): (parts: seq<string>)
    ensures parts != []
  {
    var i := FindDouble(s);
    if i == |s| then [s] else [s[..i]] + SplitDouble(s[i + 2..])
  }

  /** A decimal octet as net.isIP has it: no leading zeros. */
  predicate IsOctet(s: string) {
    1 <= |s| <= 3 && Digits(s, 10) && (|s| > 1 ==> s[0] != '0') && Number(s, 10) < 256
  }

  predicate IsIPv4(s: string) {
    var parts := Split(s, '.');
    |parts| == 4 && forall p <- parts :: IsOctet(p)
  }

  predicate IsWord(s: string) {
    1 <= |s| <= 4 && Digits(s, 16)
  }

  function WithoutZone(ip: string): string {
    ip[..Find(ip, '%')]
  }

  /** An embedded dotted tail as two hexadecimal words. */
  function FoldTail(text: string): Option<string> {
    if '.' !in text then Some(text)
    else
      var cut := AfterLast(text, ':');
      var v4 := text[cut..];
      if !IsIPv4(v4) then None
      else
        var o := Split(v4, '.');
        assert o[0] in o && o[1] in o && o[2] in o && o[3] in o;
        Some(text[..cut] + TwoWords(Number(o[0], 10), Number(o[1], 10), Number(o[2], 10), Number(o[3], 10)))
  }

  function TwoWords(a: nat, b: nat, c: nat, d: nat): string {
    Print(a * 256 + b, 16) + ":" + Print(c * 256 + d, 16)
  }

  function Words(half: string): seq<string> {
    if half == "" then [] else Split(half, ':')
  }

  function Zeros(n: nat): seq<string> {
    seq(n, _ => "0")
  }

  /** The eight words of a text without zone or dotted tail. */
  function RawWords(text: string): (words: Option<seq<string>>)
    ensures words.Some? ==> |words.value| == 8
  {
    var halves := SplitDouble(text);
    if |halves| > 2 then None
    else if |halves| == 2 then
      var head, tail := Words(halves[0]), Words(halves[1]);
      if |head| + |tail| > 8 then None else Some(head + Zeros(8 - |head| - |tail|) + tail)
    else if |Words(halves[0])| == 8 then Some(Words(halves[0]))
    else None
  }

  function Values(words: seq<string>): (values: seq<nat>)
    ensures |values| == |words| && forall i :: 0 <= i < |words| ==> values[i] == Number(words[i], 16)
  {
    if words == [] then [] else [Number(words[0], 16)] + Values(words[1..])
  }

  /** What expanding a text must give. */
  function Expand(ip: string): (groups: Option<seq<nat>>)
    ensures groups.Some? ==> |groups.value| == 8
  {
    match FoldTail(WithoutZone(ip))
    case None => None
    case Some(text) =>
      match RawWords(text)
      case None => None
      case Some(raw) => if forall w <- raw :: IsWord(w) then Some(Values(raw)) else None
  }

  method ExpandIPv6(ip: string) returns (groups: Option<seq<nat>>)
    ensures groups == Expand(ip)
  {
    var text := ip;
    var zoneIndex := Find(text, '%');
    if zoneIndex < |text| {
      text := text[..zoneIndex];
    }
    assert text == WithoutZone(ip);
    var folded := FoldTail(text);
    if folded.None? {
      return None;
    }
    var raw := RawWords(folded.value);
    if raw.None? {
      return None;
    }
    groups := ParseWords(raw.value);
  }

  method ParseWords(raw: seq<string>) returns (groups: Option<seq<nat>>)
    ensures groups == if forall w <- raw :: IsWord(w) then Some(Values(raw)) else None
  {
    var values: seq<nat> := [];
    for i := 0 to |raw|
      invariant |values| == i
      invariant forall k :: 0 <= k < i ==> IsWord(raw[k]) && values[k] == Number(raw[k], 16)
    {
      if !IsWord(raw[i]) {
        return None;
      }
      values := values + [Number(raw[i], 16)];
    }
    assert values == Values(raw);
    return Some(values);
  }

  // ---------- the written forms ----------

  /** One way to write an address: words before and, when compressed, after `::`; a dotted tail in
      place of the last two words; a zone. */
  datatype Form = Form(head: seq<string>, compressed: bool, tail: seq<string>, dotted: Option<Quad>,
                       zone: Option<string>)

  datatype Quad = Quad(a: nat, b: nat, c: nat, d: nat)

  predicate IsQuad(q: Quad) {
    q.a < 256 && q.b < 256 && q.c < 256 && q.d < 256
  }

  function Dotted(q: Quad): string {
    Join([Print(q.a, 10), Print(q.b, 10), Print(q.c, 10), Print(q.d, 10)], '.')
  }

  /** The words standing for a dotted tail. */
  function QuadWords(dotted: Option<Quad>): seq<string> {
    if dotted.None? then []
    else HexWords(dotted.value.a * 256 + dotted.value.b, dotted.value.c * 256 + dotted.value.d)
  }

  function HexWords(high: nat, low: nat): seq<string> {
    [Print(high, 16), Print(low, 16)]
  }

  /** The missing groups that `::` stands for. */
  function Missing(f: Form): int {
    8 - |f.head| - |f.tail| - |QuadWords(f.dotted)|
  }

  /** Either every group is written, or `::` stands for those that are not. */
  predicate WellFormed(f: Form) {
    && (forall w <- f.head :: IsWord(w)) && (forall w <- f.tail :: IsWord(w))
    && (f.dotted.Some? ==> IsQuad(f.dotted.value))
    && (if f.compressed then Missing(f) >= 0 else f.tail == [] && Missing(f) == 0)
  }

  /** The groups that a form denotes. */
  function Denoted(f: Form): seq<nat>
    requires WellFormed(f)
  {
    Values(f.head) + ZeroGroups(Missing(f)) + Values(f.tail) + QuadValues(f.dotted)
  }

  function ZeroGroups(n: nat): seq<nat> {
    seq(n, _ => 0)
  }

  /** The two groups that a dotted tail gives. */
  function QuadValues(dotted: Option<Quad>): seq<nat> {
    if dotted.None? then []
    else [dotted.value.a * 256 + dotted.value.b, dotted.value.c * 256 + dotted.value.d]
  }

  /** Words and a dotted tail, joined by colons. */
  function JoinDotted(words: seq<string>, dotted: Option<Quad>): string {
    Join(words + if dotted.None? then [] else [Dotted(dotted.value)], ':')
  }

  function Body(f: Form): string {
    if f.compressed then Join(f.head, ':') + "::" + JoinDotted(f.tail, f.dotted)
    else JoinDotted(f.head, f.dotted)
  }

  function Written(f: Form): string {
    Body(f) + if f.zone.None? then "" else "%" + f.zone.value
  }

  // ---------- printed numbers ----------

  lemma {:induction false} PrintFirst(n: nat)
    requires 10 <= n < 1000
    ensures |Print(n, 10)| == (if n < 100 then 2 else 3) && Print(n, 10)[0] != '0'
  {
    var first := if n < 100 then n / 10 else n / 100;
    assert Print(first, 10) == [DigitChar(first)] && DigitChar(first) != '0';
    if n >= 100 {
      assert n / 10 / 10 == first && Print(n / 10, 10) == Print(first, 10) + [DigitChar(n / 10 % 10)];
    }
  }

  lemma {:induction false} PrintOctet(n: nat)
    requires n < 256
    ensures IsOctet(Print(n, 10)) && Number(Print(n, 10), 10) == n
  {
    NumberPrint(n, 10);
    if n >= 10 {
      PrintFirst(n);
    }
  }

  lemma {:induction false} PrintWord(n: nat)
    requires n < 0x10000
    ensures IsWord(Print(n, 16)) && Number(Print(n, 16), 16) == n
  {
    NumberPrint(n, 16);
    assert |Print(n / 16 / 16 / 16, 16)| == 1;
    assert |Print(n / 16 / 16, 16)| <= 2;
    assert |Print(n / 16, 16)| <= 3;
  }

  lemma HexWordsRead(high: nat, low: nat)
    requires high < 0x10000 && low < 0x10000
    ensures (forall w <- HexWords(high, low) :: IsWord(w)) && Values(HexWords(high, low)) == [high, low]
  {
    PrintWord(high);
    PrintWord(low);
    TwoValues(Print(high, 16), Print(low, 16));
  }

  lemma QuadWordsRead(dotted: Option<Quad>)
    requires dotted.Some? ==> IsQuad(dotted.value)
    ensures forall w <- QuadWords(dotted) :: IsWord(w)
    ensures Values(QuadWords(dotted)) == QuadValues(dotted)
  {
    if dotted.Some? {
      HexWordsRead(dotted.value.a * 256 + dotted.value.b, dotted.value.c * 256 + dotted.value.d);
    }
  }

  lemma {:induction false} TwoValues(x: string, y: string)
    ensures Values([x, y]) == [Number(x, 16), Number(y, 16)]
  {
  }

  /** The dotted text is an IPv4 address with those octets. */
  lemma DottedRead(q: Quad)
    requires IsQuad(q)
    ensures Split(Dotted(q), '.') == [Print(q.a, 10), Print(q.b, 10), Print(q.c, 10), Print(q.d, 10)]
    ensures IsIPv4(Dotted(q)) && ':' !in Dotted(q)
  {
    var parts := [Print(q.a, 10), Print(q.b, 10), Print(q.c, 10), Print(q.d, 10)];
    PrintOctet(q.a);
    PrintOctet(q.b);
    PrintOctet(q.c);
    PrintOctet(q.d);
    assert forall p <- parts :: IsOctet(p);
    DigitsHaveNo(parts, 10, '.');
    SplitJoin(parts, '.');
    DigitsHaveNo(parts, 10, ':');
    JoinHasNo(parts, '.', ':');
  }

  lemma DigitsHaveNo(parts: seq<string>, base: nat, c: char)
    requires base <= 16 && DigitValue(c) >= base && forall p <- parts :: Digits(p, base)
    ensures forall p <- parts :: c !in p
  {
  }

  lemma {:induction false} JoinHasNo(parts: seq<string>, sep: char, c: char)
    requires c != sep && forall p <- parts :: c !in p
    ensures c !in Join(parts, sep)
  {
    if |parts| > 1 {
      assert parts[0] in parts && forall p <- parts[1..] :: p in parts;
      JoinHasNo(parts[1..], sep, c);
    }
  }

  lemma {:induction false} JoinLast(parts: seq<string>, x: string, c: char)
    ensures Join(parts + [x], c) == if parts == [] then x else Join(parts, c) + [c] + x
  {
    if |parts| > 1 {
      JoinLast(parts[1..], x, c);
      assert (parts + [x])[1..] == parts[1..] + [x];
    } else if |parts| == 1 {
      assert (parts + [x])[1..] == [x];
    }
  }

  // ---------- the zone ----------

  lemma BodyHasNoZone(f: Form)
    requires WellFormed(f)
    ensures '%' !in Body(f)
  {
    DigitsHaveNo(f.head, 16, '%');
    DigitsHaveNo(f.tail, 16, '%');
    JoinHasNo(f.head, ':', '%');
    var words := if f.compressed then f.tail else f.head;
    if f.dotted.Some? {
      var q := f.dotted.value;
      var parts := [Print(q.a, 10), Print(q.b, 10), Print(q.c, 10), Print(q.d, 10)];
      NumberPrint(q.a, 10);
      NumberPrint(q.b, 10);
      NumberPrint(q.c, 10);
      NumberPrint(q.d, 10);
      DigitsHaveNo(parts, 10, '%');
      JoinHasNo(parts, '.', '%');
      assert forall w <- words + [Dotted(q)] :: w in words || w == Dotted(q);
      JoinHasNo(words + [Dotted(q)], ':', '%');
    } else {
      assert words + [] == words;
      JoinHasNo(words, ':', '%');
    }
  }

  lemma ZoneRead(f: Form)
    requires WellFormed(f)
    ensures WithoutZone(Written(f)) == Body(f)
  {
    BodyHasNoZone(f);
    var zone := if f.zone.None? then "" else "%" + f.zone.value;
    FindAt(Body(f), '%', zone);
    assert (Body(f) + zone)[..|Body(f)|] == Body(f);
  }

  // ---------- the dotted tail ----------

  /** The form with its dotted tail as words. */
  function Plain(f: Form): Form {
    if f.dotted.None? then f
    else if f.compressed then f.(tail := f.tail + QuadWords(f.dotted), dotted := None)
    else f.(head := f.head + QuadWords(f.dotted), dotted := None)
  }

  lemma TailFolded(before: string, q: Quad)
    requires IsQuad(q) && (before == "" || before[|before| - 1] == ':')
    ensures FoldTail(before + Dotted(q)) == Some(before + TwoWords(q.a, q.b, q.c, q.d))
  {
    var text := before + Dotted(q);
    DottedRead(q);
    AfterLastAt(before, Dotted(q), ':');
    assert text[|before|..] == Dotted(q) && text[..|before|] == before;
    assert '.' in Dotted(q) by {
      assert Dotted(q)[|Print(q.a, 10)|] == '.';
    }
    PrintOctet(q.a);
    PrintOctet(q.b);
    PrintOctet(q.c);
    PrintOctet(q.d);
  }

  lemma WordsHaveNoDot(f: Form)
    requires WellFormed(f) && f.dotted.None?
    ensures '.' !in Body(f)
  {
    DigitsHaveNo(f.head, 16, '.');
    DigitsHaveNo(f.tail, 16, '.');
    JoinHasNo(f.head, ':', '.');
    JoinHasNo(f.tail, ':', '.');
    assert f.head + [] == f.head && f.tail + [] == f.tail;
  }

  /** Words followed by a colon, or nothing. */
  function Before(words: seq<string>): string {
    if words == [] then "" else Join(words, ':') + ":"
  }

  lemma {:induction false} JoinOne(words: seq<string>, x: string)
    ensures Join(words + [x], ':') == Before(words) + x
  {
    JoinLast(words, x, ':');
    assert words == [] ==> "" + x == x;
  }

  lemma {:induction false} JoinTwo(words: seq<string>, x: string, y: string)
    ensures Join(words + [x, y], ':') == Before(words) + (x + ":" + y)
  {
    JoinOne(words, x);
    JoinOne(words + [x], y);
    assert words + [x] + [y] == words + [x, y];
    assert Before(words) + x + ":" + y == Before(words) + (x + ":" + y);
  }

  /** The text of a form before its dotted tail. */
  function Start(f: Form): string {
    if f.compressed then Join(f.head, ':') + "::" + Before(f.tail) else Before(f.head)
  }

  lemma BodyEnds(f: Form, q: Quad)
    requires WellFormed(f) && f.dotted == Some(q)
    ensures Body(f) == Start(f) + Dotted(q)
  {
    JoinOne(if f.compressed then f.tail else f.head, Dotted(q));
    if f.compressed {
      Associative(Join(f.head, ':') + "::", Before(f.tail), Dotted(q));
    }
  }

  lemma PlainEnds(f: Form, q: Quad)
    requires WellFormed(f) && f.dotted == Some(q)
    ensures Body(Plain(f)) == Start(f) + TwoWords(q.a, q.b, q.c, q.d)
  {
    var words := if f.compressed then f.tail else f.head;
    var hi, lo := Print(q.a * 256 + q.b, 16), Print(q.c * 256 + q.d, 16);
    JoinTwo(words, hi, lo);
    assert words + [hi, lo] + [] == words + [hi, lo];
    if f.compressed {
      Associative(Join(f.head, ':') + "::", Before(words), hi + ":" + lo);
    }
  }

  lemma BodyFolded(f: Form)
    requires WellFormed(f)
    ensures FoldTail(Body(f)) == Some(Body(Plain(f)))
  {
    if f.dotted.None? {
      WordsHaveNoDot(f);
    } else {
      BodyEnds(f, f.dotted.value);
      PlainEnds(f, f.dotted.value);
      TailFolded(Start(f), f.dotted.value);
    }
  }

  lemma {:induction false} ValuesSplit(a: seq<string>, b: seq<string>)
    ensures Values(a + b) == Values(a) + Values(b)
  {
  }

  lemma PlainIsWellFormed(f: Form)
    requires WellFormed(f)
    ensures WellFormed(Plain(f)) && Plain(f).dotted.None?
  {
    if f.dotted.Some? {
      var words := QuadWords(f.dotted);
      QuadWordsRead(f.dotted);
      assert forall w <- f.tail + words :: w in f.tail || w in words;
      assert forall w <- f.head + words :: w in f.head || w in words;
    }
  }

  lemma PlainDenotes(f: Form)
    requires WellFormed(f)
    ensures WellFormed(Plain(f)) && Denoted(Plain(f)) == Denoted(f)
  {
    PlainIsWellFormed(f);
    if f.dotted.Some? {
      var words := QuadWords(f.dotted);
      QuadWordsRead(f.dotted);
      if f.compressed {
        TailDenotes(f, words);
      } else {
        HeadDenotes(f, words);
      }
    }
  }

  lemma {:induction false} TailDenotes(f: Form, words: seq<string>)
    requires WellFormed(f) && |words| == |QuadWords(f.dotted)| && Values(words) == QuadValues(f.dotted)
    requires WellFormed(f.(tail := f.tail + words, dotted := None))
    ensures Denoted(f.(tail := f.tail + words, dotted := None)) == Denoted(f)
  {
    assert Missing(f.(tail := f.tail + words, dotted := None)) == Missing(f);
    ValuesSplit(f.tail, words);
    Regroup(Values(f.head) + ZeroGroups(Missing(f)), Values(f.tail), Values(words));
  }

  lemma {:induction false} HeadDenotes(f: Form, words: seq<string>)
    requires WellFormed(f) && !f.compressed && Values(words) == QuadValues(f.dotted)
    requires WellFormed(f.(head := f.head + words, dotted := None))
    ensures Denoted(f.(head := f.head + words, dotted := None)) == Denoted(f)
  {
    ValuesSplit(f.head, words);
    Drop(Values(f.head), Values(words), ZeroGroups(Missing(f)), Values(f.tail));
  }

  lemma Regroup<T>(a: seq<T>, b: seq<T>, c: seq<T>)
    ensures a + (b + c) + [] == a + b + c
  {
  }

  lemma Drop<T>(a: seq<T>, b: seq<T>, x: seq<T>, y: seq<T>)
    requires x == [] && y == []
    ensures a + b + x + y + [] == a + x + y + b
  {
  }

  // ---------- the words ----------

  /** Words joined by colons neither start nor end with one, and have no two in a row. */
  lemma {:induction false} JoinedWords(words: seq<string>)
    requires forall w <- words :: IsWord(w)
    ensures var s := Join(words, ':');
      && (s == "" <==> words == []) && (s != "" ==> s[0] != ':' && s[|s| - 1] != ':')
      && forall i: nat :: !DoubleAt(s, i)
  {
    if words != [] {
      var w, s := words[0], Join(words, ':');
      assert w in words && w[0] in w && w[|w| - 1] in w;
      DigitsHaveNo(words, 16, ':');
      if |words| > 1 {
        var rest := Join(words[1..], ':');
        assert forall u <- words[1..] :: u in words;
        JoinedWords(words[1..]);
        assert s == w + ":" + rest;
        forall i: nat
          ensures !DoubleAt(s, i)
        {
          if i < |w| {
            assert s[i] in w;
          } else if i > |w| && i < |s| {
            assert DoubleAt(s, i) <==> DoubleAt(rest, i - |w| - 1);
          }
        }
      } else {
        forall i: nat | i < |w|
          ensures s[i] != ':'
        {
          assert s[i] in w;
        }
      }
    }
  }

  lemma {:induction false} DoubleCut(a: seq<string>, b: seq<string>)
    requires (forall w <- a :: IsWord(w)) && (forall w <- b :: IsWord(w))
    ensures SplitDouble(Join(a, ':') + "::" + Join(b, ':')) == [Join(a, ':'), Join(b, ':')]
  {
    var x, y := Join(a, ':'), Join(b, ':');
    var s := x + "::" + y;
    JoinedWords(a);
    JoinedWords(b);
    assert DoubleAt(s, |x|);
    forall k: nat | k < |x|
      ensures !DoubleAt(s, k)
    {
      assert k + 1 < |x| ==> (DoubleAt(s, k) <==> DoubleAt(x, k));
    }
    assert FindDouble(s) == |x|;
    assert s[..|x|] == x && s[|x| + 2..] == y;
    assert FindDouble(y) == |y|;
  }

  lemma {:induction false} WordsJoined(words: seq<string>)
    requires forall w <- words :: IsWord(w)
    ensures Words(Join(words, ':')) == words
  {
    JoinedWords(words);
    if words != [] {
      DigitsHaveNo(words, 16, ':');
      SplitJoin(words, ':');
    }
  }

  lemma {:induction false} HalvesRead(text: string, x: string, y: string, head: seq<string>, tail: seq<string>)
    requires SplitDouble(text) == [x, y] && Words(x) == head && Words(y) == tail && |head| + |tail| <= 8
    ensures RawWords(text) == Some(head + Zeros(8 - |head| - |tail|) + tail)
  {
  }

  lemma {:induction false} CompressedRead(head: seq<string>, tail: seq<string>)
    requires (forall w <- head :: IsWord(w)) && (forall w <- tail :: IsWord(w)) && |head| + |tail| <= 8
    ensures RawWords(Join(head, ':') + "::" + Join(tail, ':')) == Some(head + Zeros(8 - |head| - |tail|) + tail)
  {
    WordsJoined(head);
    WordsJoined(tail);
    DoubleCut(head, tail);
    HalvesRead(Join(head, ':') + "::" + Join(tail, ':'), Join(head, ':'), Join(tail, ':'), head, tail);
  }

  lemma {:induction false} FullRead(words: seq<string>)
    requires (forall w <- words :: IsWord(w)) && |words| == 8
    ensures RawWords(Join(words, ':')) == Some(words)
  {
    WordsJoined(words);
    JoinedWords(words);
    assert FindDouble(Join(words, ':')) == |Join(words, ':')|;
  }

  lemma RawRead(f: Form)
    requires WellFormed(f) && f.dotted.None?
    ensures RawWords(Body(f)) == Some(f.head + Zeros(Missing(f)) + f.tail)
  {
    if f.compressed {
      CompressedRead(f.head, f.tail);
      assert f.tail + [] == f.tail;
    } else {
      FullRead(f.head);
      assert f.head + [] == f.head && f.head + Zeros(0) + f.tail == f.head;
    }
  }

  lemma ZeroWord()
    ensures IsWord("0") && Number("0", 16) == 0
  {
    NumberAppend("", '0', 16);
    assert "" + ['0'] == "0" && Number("", 16) == 0;
  }

  lemma ZerosRead(n: nat)
    ensures (forall w <- Zeros(n) :: IsWord(w)) && Values(Zeros(n)) == ZeroGroups(n)
  {
    ZeroWord();
  }

  lemma RawValues(f: Form)
    requires WellFormed(f) && f.dotted.None?
    ensures var raw := f.head + Zeros(Missing(f)) + f.tail;
      (forall w <- raw :: IsWord(w)) && Values(raw) == Denoted(f)
  {
    var zeros := Zeros(Missing(f));
    ZerosRead(Missing(f));
    ValuesSplit(f.head + zeros, f.tail);
    ValuesSplit(f.head, zeros);
    assert Denoted(f) == Values(f.head) + ZeroGroups(Missing(f)) + Values(f.tail) + [];
    assert forall w <- f.head + zeros + f.tail :: w in f.head || w in zeros || w in f.tail;
  }

  /** Every written form of an address expands to its eight groups. */
  lemma IPv6RoundTrip(f: Form)
    requires WellFormed(f)
    ensures Expand(Written(f)) == Some(Denoted(f)) && |Denoted(f)| == 8
  {
    ZoneRead(f);
    BodyFolded(f);
    PlainDenotes(f);
    RawRead(Plain(f));
    RawValues(Plain(f));
  }

  /** Writing eight groups out in full is one of the forms, so every address has a text. */
  function FullForm(groups: seq<nat>): Form {
    Form(PrintAll(groups), false, [], None, None)
  }

  function PrintAll(groups: seq<nat>): (words: seq<string>)
    ensures |words| == |groups|
  {
    if groups == [] then [] else [Print(groups[0], 16)] + PrintAll(groups[1..])
  }

  lemma {:induction false} PrintAllRead(groups: seq<nat>)
    requires forall g <- groups :: g < 0x10000
    ensures (forall w <- PrintAll(groups) :: IsWord(w)) && Values(PrintAll(groups)) == groups
  {
    if groups != [] {
      assert groups[0] in groups && forall g <- groups[1..] :: g in groups;
      PrintWord(groups[0]);
      PrintAllRead(groups[1..]);
      assert Values(PrintAll(groups)) == [groups[0]] + Values(PrintAll(groups[1..]));
    }
  }

  lemma EveryAddressIsWritten(groups: seq<nat>)
    requires |groups| == 8 && forall g <- groups :: g < 0x10000
    ensures WellFormed(FullForm(groups)) && Denoted(FullForm(groups)) == groups
  {
    PrintAllRead(groups);
    assert Values([]) == [];
    assert groups + ZeroGroups(0) + [] + [] == groups;
  }

  // ---------- verdicts ----------

  /** parseInt(part, 10) for the digits a part starts with; none is NaN. */
  function ParseInt(part: string): Option<nat> {
    var digits := LeadingDigits(part);
    if digits == "" then None else Some(Number(digits, 10))
  }

  function LeadingDigits(s: string): string {
    if s != "" && DigitValue(s[0]) < 10 then [s[0]] + LeadingDigits(s[1..]) else ""
  }

  /** The address ranges of the IPv4 check, on its first two octets; NaN is in none of them. */
  predicate PrivateOctets(a: Option<nat>, b: Option<nat>) {
    a.Some? && (
    || a.value == 0
    || a.value == 10
    || (a.value == 100 && b.Some? && 64 <= b.value <= 127)
    || a.value == 127
    || (a.value == 169 && b == Some(254))
    || (a.value == 172 && b.Some? && 16 <= b.value <= 31)
    || (a.value == 192 && b == Some(168))
    || (a.value == 198 && (b == Some(18) || b == Some(19)))
    || a.value >= 224)
  }

  predicate IsPrivateIPv4(ip: string) {
    var octets := Split(ip, '.');
    |octets| != 4 || PrivateOctets(ParseInt(octets[0]), ParseInt(octets[1]))
  }

  predicate ZeroUpTo(g: seq<nat>, n: nat)
    requires n <= |g|
  {
    forall i :: 0 <= i < n ==> g[i] == 0
  }

  predicate IsMapped(g: seq<nat>)
    requires |g| == 8
  {
    ZeroUpTo(g, 5) && g[5] == 0xffff
  }

  /** The masks keep the leading bits of a 16-bit group. */
  predicate PrivateGroups(g: seq<nat>)
    requires |g| == 8
  {
    if ZeroUpTo(g, 7) && g[7] <= 1 then true
    else if IsMapped(g) then IsPrivateIPv4(Dotted(Quad(g[6] / 256, g[6] % 256, g[7] / 256, g[7] % 256)))
    else g[0] / 0x200 * 0x200 == 0xfc00 || g[0] / 0x40 * 0x40 == 0xfe80 || g[0] / 0x100 * 0x100 == 0xff00
  }

  predicate IsPrivateIPv6(ip: string) {
    match Expand(ip)
    case None => true // unparseable: fail closed
    case Some(g) => PrivateGroups(g)
  }

  lemma {:induction false} LeadingAll(s: string)
    requires Digits(s, 10)
    ensures LeadingDigits(s) == s
  {
    if s != "" {
      assert s[0] in s;
      LeadingAll(s[1..]);
    }
  }

  lemma PrivateDotted(q: Quad)
    requires IsQuad(q)
    ensures IsPrivateIPv4(Dotted(q)) <==> PrivateOctets(Some(q.a), Some(q.b))
  {
    DottedRead(q);
    PrintOctet(q.a);
    PrintOctet(q.b);
    LeadingAll(Print(q.a, 10));
    LeadingAll(Print(q.b, 10));
  }

  /** The 32-bit number of an address, and the block of numbers sharing its first bits. */
  function Address(q: Quad): nat {
    ((q.a * 256 + q.b) * 256 + q.c) * 256 + q.d
  }

  predicate InBlock(n: nat, first: nat, size: nat) {
    first <= n < first + size
  }

  /** The blocks that the check names: the verdict on an address is membership in one of them. */
  lemma IPv4Blocks(q: Quad)
    requires IsQuad(q)
    ensures IsPrivateIPv4(Dotted(q)) <==>
      || InBlock(Address(q), Address(Quad(0, 0, 0, 0)), 0x100_0000)
      || InBlock(Address(q), Address(Quad(10, 0, 0, 0)), 0x100_0000)
      || InBlock(Address(q), Address(Quad(100, 64, 0, 0)), 0x40_0000)
      || InBlock(Address(q), Address(Quad(127, 0, 0, 0)), 0x100_0000)
      || InBlock(Address(q), Address(Quad(169, 254, 0, 0)), 0x1_0000)
      || InBlock(Address(q), Address(Quad(172, 16, 0, 0)), 0x10_0000)
      || InBlock(Address(q), Address(Quad(192, 168, 0, 0)), 0x1_0000)
      || InBlock(Address(q), Address(Quad(198, 18, 0, 0)), 0x2_0000)
      || InBlock(Address(q), Address(Quad(224, 0, 0, 0)), 0x2000_0000)
  {
    PrivateDotted(q);
    var high, low := q.a * 256 + q.b, q.c * 256 + q.d;
    assert Address(q) == high * 0x1_0000 + low && low < 0x1_0000;
    OctetBlocks(q.a, q.b);
  }

  lemma OctetBlocks(a: nat, b: nat)
    requires a < 256 && b < 256
    ensures var high := a * 256 + b;
      PrivateOctets(Some(a), Some(b)) <==>
        || high < 0x100 || InBlock(high, 0xa00, 0x100) || InBlock(high, 0x6440, 0x40)
        || InBlock(high, 0x7f00, 0x100) || high == 0xa9fe || InBlock(high, 0xac10, 0x10)
        || high == 0xc0a8 || InBlock(high, 0xc612, 2) || 0xe000 <= high
  {
  }

  /** The verdict on a written address is the one on its groups. */
  lemma WrittenVerdict(f: Form)
    requires WellFormed(f)
    ensures |Denoted(f)| == 8 && (IsPrivateIPv6(Written(f)) <==> PrivateGroups(Denoted(f)))
  {
    IPv6RoundTrip(f);
  }

  lemma MappedGroups(g: seq<nat>, q: Quad)
    requires |g| == 8 && IsQuad(q) && IsMapped(g) && g[6] == q.a * 256 + q.b && g[7] == q.c * 256 + q.d
    ensures PrivateGroups(g) <==> IsPrivateIPv4(Dotted(q))
  {
    assert g[6] / 256 == q.a && g[6] % 256 == q.b && g[7] / 256 == q.c && g[7] % 256 == q.d;
  }

  /** However it is written, a mapped address gets the verdict of the IPv4 address it carries. */
  lemma MappedVerdict(f: Form, q: Quad)
    requires WellFormed(f) && IsQuad(q)
    requires |Denoted(f)| == 8 && IsMapped(Denoted(f))
    requires Denoted(f)[6] == q.a * 256 + q.b && Denoted(f)[7] == q.c * 256 + q.d
    ensures IsPrivateIPv6(Written(f)) <==> IsPrivateIPv4(Dotted(q))
  {
    WrittenVerdict(f);
    MappedGroups(Denoted(f), q);
  }

  lemma GroupsBlocks(g: seq<nat>)
    requires |g| == 8 && !IsMapped(g) && forall x <- g :: x < 0x10000
    ensures PrivateGroups(g) <==>
      || (ZeroUpTo(g, 7) && g[7] <= 1)
      || InBlock(g[0], 0xfc00, 0x200)
      || InBlock(g[0], 0xfe80, 0x40)
      || InBlock(g[0], 0xff00, 0x100)
  {
    assert g[0] in g;
  }

  /** The verdict on any other written address: unspecified, loopback, fc00::/7, fe80::/10 or ff00::/8. */
  lemma IPv6Blocks(f: Form)
    requires WellFormed(f) && |Denoted(f)| == 8 && !IsMapped(Denoted(f)) && forall g <- Denoted(f) :: g < 0x10000
    ensures IsPrivateIPv6(Written(f)) <==>
      || (ZeroUpTo(Denoted(f), 7) && Denoted(f)[7] <= 1)
      || InBlock(Denoted(f)[0], 0xfc00, 0x200)
      || InBlock(Denoted(f)[0], 0xfe80, 0x40)
      || InBlock(Denoted(f)[0], 0xff00, 0x100)
  {
    WrittenVerdict(f);
    GroupsBlocks(Denoted(f));
  }
}
