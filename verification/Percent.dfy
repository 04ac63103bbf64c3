/** Percent-encoding normalisation of URL paths (sections 2.3, 6.2.2.1 and 6.2.2.2 of RFC 3986) and
    the collapsing of repeated slashes. */
module Percent {
  import opened Text

  // ---------- the code ----------

  predicate Unreserved(c: char) {
    'A' <= c <= 'Z' || 'a' <= c <= 'z' || '0' <= c <= '9' || c == '-' || c == '.' || c == '_' || c == '~'
  }

  predicate IsHex(c: char) {
    DigitValue(c) < 16
  }

  /** A `%` and two hexadecimal digits stand at the start. */
  predicate IsTriplet(s: string) {
    |s| >= 3 && s[0] == '%' && IsHex(s[1]) && IsHex(s[2])
  }

  function UpperChar(c: char): char {
    if 'a' <= c <= 'z' then c - 'a' + 'A' else c
  }

  function ByteOf(high: char, low: char): (v: nat)
    requires IsHex(high) && IsHex(low)
    ensures v < 256
  {
    DigitValue(high) * 16 + DigitValue(low)
  }

  /** An encoded unreserved character is decoded, and other encodings get upper-case digits. */
  function NormalizeTriplet(high: char, low: char): string
    requires IsHex(high) && IsHex(low)
  {
    var c := ByteOf(high, low) as char;
    if Unreserved(c) then [c] else ['%', UpperChar(high), UpperChar(low)]
  }

  function Normalize(s: string): string {
    if s == "" then ""
    else if IsTriplet(s) then NormalizeTriplet(s[1], s[2]) + Normalize(s[3..])
    else [s[0]] + Normalize(s[1..])
  }

  /** Runs of slashes become one. */
  function Collapse(s: string): string {
    if |s| >= 2 && s[0] == '/' && s[1] == '/' then Collapse(s[1..])
    else if s == "" then ""
    else [s[0]] + Collapse(s[1..])
  }

  function NormalizePath(s: string): string {
    Collapse(Normalize(s))
  }

  // ---------- what a path says ----------

  /** One character of a path, plain or percent-encoded. */
  datatype Token = Plain(c: char) | Encoded(v: nat)

  function Tokens(s: string): seq<Token> {
    if s == "" then []
    else if IsTriplet(s) then [Encoded(ByteOf(s[1], s[2]))] + Tokens(s[3..])
    else [Plain(s[0])] + Tokens(s[1..])
  }

  function Code(t: Token): nat {
    match t
    case Plain(c) => c as nat
    case Encoded(v) => v
  }

  function Codes(ts: seq<Token>): (codes: seq<nat>)
    ensures |codes| == |ts| && forall i :: 0 <= i < |ts| ==> codes[i] == Code(ts[i])
  {
    if ts == [] then [] else [Code(ts[0])] + Codes(ts[1..])
  }

  /** The percent-decoded path. */
  function Decode(s: string): seq<nat> {
    Codes(Tokens(s))
  }

  /** Every `%` begins an encoding. */
  predicate WellFormed(s: string) {
    s == "" || if s[0] == '%' then IsTriplet(s) && WellFormed(s[3..]) else WellFormed(s[1..])
  }

  /** The same character, differing at most by hexadecimal case or by encoding an unreserved one. */
  predicate SameToken(a: Token, b: Token) {
    a == b || (Code(a) == Code(b) && (Unreserved(PlainOf(a)) || Unreserved(PlainOf(b))))
  }

  /** The character a token writes plainly, if it does. */
  function PlainOf(t: Token): char {
    if t.Plain? then t.c else '%'
  }

  predicate SameTokens(a: seq<Token>, b: seq<Token>) {
    |a| == |b| && forall i :: 0 <= i < |a| ==> SameToken(a[i], b[i])
  }

  /** A bare `%` that two characters, plain or decoded, would complete to an encoding. */
  predicate StrayAt(ts: seq<Token>, i: nat) {
    i + 2 < |ts| && ts[i] == Plain('%') && MayBeHex(ts[i + 1]) && MayBeHex(ts[i + 2])
  }

  predicate MayBeHex(t: Token) {
    Canon(t).Plain? && IsHex(Canon(t).c)
  }

  ghost predicate NoStray(ts: seq<Token>) {
    forall i: nat :: !StrayAt(ts, i)
  }

  // ---------- normalisation on tokens ----------

  function Canon(t: Token): Token {
    if t.Encoded? && t.v < 256 && Unreserved(t.v as char) then Plain(t.v as char) else t
  }

  function CanonAll(ts: seq<Token>): (cs: seq<Token>)
    ensures |cs| == |ts| && forall i :: 0 <= i < |ts| ==> cs[i] == Canon(ts[i])
  {
    if ts == [] then [] else [Canon(ts[0])] + CanonAll(ts[1..])
  }

  function UpperDigit(v: nat): char
    requires v < 16
  {
    UpperChar(DigitChar(v))
  }

  predicate Bytes(ts: seq<Token>) {
    forall t <- ts :: t.Encoded? ==> t.v < 256
  }

  function Show(t: Token): string
    requires t.Encoded? ==> t.v < 256
  {
    match t
    case Plain(c) => [c]
    case Encoded(v) => ['%', UpperDigit(v / 16), UpperDigit(v % 16)]
  }

  function ShowAll(ts: seq<Token>): string
    requires Bytes(ts)
  {
    if ts == [] then ""
    else
      assert ts[0] in ts && forall t <- ts[1..] :: t in ts;
      Show(ts[0]) + ShowAll(ts[1..])
  }

  lemma UpperDigitOf(c: char)
    requires IsHex(c)
    ensures UpperDigit(DigitValue(c)) == UpperChar(c) && DigitValue(UpperChar(c)) == DigitValue(c)
  {
    var v := DigitValue(c);
    assert v < 10 ==> DigitChar(v) == '0' + v as char;
    assert v >= 10 ==> DigitChar(v) == 'a' + (v - 10) as char;
  }

  lemma UpperDigitValue(v: nat)
    requires v < 16
    ensures IsHex(UpperDigit(v)) && DigitValue(UpperDigit(v)) == v && UpperChar(UpperDigit(v)) == UpperDigit(v)
  {
    DigitCharValue(v);
    UpperDigitOf(DigitChar(v));
    assert v < 10 ==> DigitChar(v) == '0' + v as char;
    assert v >= 10 ==> DigitChar(v) == 'a' + (v - 10) as char;
  }

  lemma {:induction false} TokensAreBytes(s: string)
    ensures Bytes(Tokens(s))
  {
    if s != "" {
      TokensAreBytes(s[if IsTriplet(s) then 3 else 1..]);
    }
  }

  lemma {:induction false} CanonBytes(ts: seq<Token>)
    requires Bytes(ts)
    ensures Bytes(CanonAll(ts))
  {
    forall t <- CanonAll(ts)
      ensures t.Encoded? ==> t.v < 256
    {
      var i :| 0 <= i < |ts| && CanonAll(ts)[i] == t;
      assert ts[i] in ts;
    }
  }

  lemma TripletShown(high: char, low: char)
    requires IsHex(high) && IsHex(low)
    ensures NormalizeTriplet(high, low) == Show(Canon(Encoded(ByteOf(high, low))))
  {
    UpperDigitOf(high);
    UpperDigitOf(low);
    var v := ByteOf(high, low);
    assert v / 16 == DigitValue(high) && v % 16 == DigitValue(low);
  }

  /** The code prints the canonical tokens. */
  lemma {:induction false} NormalizeShows(s: string)
    ensures Bytes(CanonAll(Tokens(s))) && Normalize(s) == ShowAll(CanonAll(Tokens(s)))
    decreases |s|
  {
    TokensAreBytes(s);
    CanonBytes(Tokens(s));
    if s != "" {
      if IsTriplet(s) {
        NormalizeShows(s[3..]);
        TripletShown(s[1], s[2]);
        assert CanonAll(Tokens(s)) == [Canon(Encoded(ByteOf(s[1], s[2])))] + CanonAll(Tokens(s[3..]));
      } else {
        NormalizeShows(s[1..]);
        assert CanonAll(Tokens(s)) == [Plain(s[0])] + CanonAll(Tokens(s[1..]));
      }
    }
  }

  // ---------- reading printed tokens ----------

  /** Printed, a stray is read as one encoding. */
  function Merge(ts: seq<Token>): seq<Token> {
    if ts == [] then []
    else if StrayAt(ts, 0) then [Encoded(StrayByte(ts))] + Merge(ts[3..])
    else [ts[0]] + Merge(ts[1..])
  }

  function StrayByte(ts: seq<Token>): (v: nat)
    requires StrayAt(ts, 0)
    ensures v < 256
  {
    ByteOf(Canon(ts[1]).c, Canon(ts[2]).c)
  }

  predicate Canonical(ts: seq<Token>) {
    forall t <- ts :: Canon(t) == t
  }

  lemma {:induction false} EncodedShown(v: nat, rest: string)
    requires v < 256
    ensures Tokens(Show(Encoded(v)) + rest) == [Encoded(v)] + Tokens(rest)
  {
    var s := Show(Encoded(v)) + rest;
    UpperDigitValue(v / 16);
    UpperDigitValue(v % 16);
    assert s[0] == '%' && s[1] == UpperDigit(v / 16) && s[2] == UpperDigit(v % 16) && s[3..] == rest;
  }

  /** A printed list starts with an encoding's digits exactly when two plain ones head it. */
  lemma {:induction false} HeadShown(ts: seq<Token>)
    requires Bytes(ts) && Canonical(ts) && ts != [] && ts[0] == Plain('%')
    ensures IsTriplet(ShowAll(ts)) <==> StrayAt(ts, 0)
    ensures StrayAt(ts, 0) ==> ShowAll(ts) == ['%', ts[1].c, ts[2].c] + ShowAll(ts[3..])
  {
    var rest := ts[1..];
    assert ShowAll(ts) == ['%'] + ShowAll(rest);
    if |ts| >= 2 {
      assert ts[1] in ts && ShowAll(rest) == Show(ts[1]) + ShowAll(rest[1..]);
      assert ts[1].Encoded? ==> ShowAll(ts)[1] == '%';
      if |ts| >= 3 && ts[1].Plain? {
        assert ts[2] in ts && rest[1..] == ts[2..] && rest[1..][1..] == ts[3..];
        assert ShowAll(ts[2..]) == Show(ts[2]) + ShowAll(ts[3..]);
        assert ts[2].Encoded? ==> ShowAll(ts)[2] == '%';
      }
    }
  }

  lemma {:induction false} TokensShow(ts: seq<Token>)
    requires Bytes(ts) && Canonical(ts)
    ensures Tokens(ShowAll(ts)) == Merge(ts)
    decreases |ts|
  {
    if ts != [] {
      assert ts[0] in ts && forall t <- ts[1..] :: t in ts;
      var s := ShowAll(ts);
      if ts[0].Encoded? {
        TokensShow(ts[1..]);
        EncodedShown(ts[0].v, ShowAll(ts[1..]));
      } else if ts[0].c == '%' {
        HeadShown(ts);
        if StrayAt(ts, 0) {
          assert (forall t <- ts[3..] :: t in ts) && ts[1] in ts && ts[2] in ts;
          TokensShow(ts[3..]);
          assert s[1] == ts[1].c && s[2] == ts[2].c && s[3..] == ShowAll(ts[3..]);
        } else {
          TokensShow(ts[1..]);
          assert s[1..] == ShowAll(ts[1..]);
        }
      } else {
        TokensShow(ts[1..]);
        assert s[1..] == ShowAll(ts[1..]);
      }
    }
  }

  lemma {:induction false} MergeLength(ts: seq<Token>)
    ensures |Merge(ts)| <= |ts|
    ensures NoStray(ts) ==> Merge(ts) == ts
    ensures !NoStray(ts) ==> |Merge(ts)| < |ts|
    decreases |ts|
  {
    if ts != [] {
      if StrayAt(ts, 0) {
        MergeLength(ts[3..]);
      } else {
        MergeLength(ts[1..]);
        assert forall i: nat :: StrayAt(ts[1..], i) <==> StrayAt(ts, i + 1);
        if !NoStray(ts) {
          var i: nat :| StrayAt(ts, i);
          assert StrayAt(ts[1..], i - 1);
        }
      }
    }
  }

  lemma CanonTwice(t: Token)
    ensures Canon(Canon(t)) == Canon(t) && (Canon(t) == Plain('%') <==> t == Plain('%'))
  {
    assert !Unreserved('%');
  }

  lemma {:induction false} StrayOfCanon(ts: seq<Token>, i: nat)
    ensures StrayAt(CanonAll(ts), i) <==> StrayAt(ts, i)
  {
    if i + 2 < |ts| {
      CanonTwice(ts[i]);
      CanonTwice(ts[i + 1]);
      CanonTwice(ts[i + 2]);
    }
  }

  lemma {:induction false} StraysOfCanon(ts: seq<Token>)
    requires Bytes(ts)
    ensures Canonical(CanonAll(ts)) && (NoStray(CanonAll(ts)) <==> NoStray(ts))
    ensures Codes(CanonAll(ts)) == Codes(ts)
  {
    forall t <- CanonAll(ts)
      ensures Canon(t) == t
    {
      var i :| 0 <= i < |ts| && CanonAll(ts)[i] == t;
      CanonTwice(ts[i]);
    }
    forall i: nat
      ensures StrayAt(CanonAll(ts), i) <==> StrayAt(ts, i)
    {
      StrayOfCanon(ts, i);
    }
  }

  lemma {:induction false} NormalTokens(s: string)
    ensures Tokens(Normalize(s)) == Merge(CanonAll(Tokens(s)))
  {
    NormalizeShows(s);
    TokensAreBytes(s);
    StraysOfCanon(Tokens(s));
    TokensShow(CanonAll(Tokens(s)));
  }

  // ---------- the theorems ----------

  /** The decoded path is preserved exactly when no bare `%` would be completed. */
  lemma {:induction false} DecodePreserved(s: string)
    ensures Decode(Normalize(s)) == Decode(s) <==> NoStray(Tokens(s))
  {
    var cs := CanonAll(Tokens(s));
    NormalTokens(s);
    TokensAreBytes(s);
    StraysOfCanon(Tokens(s));
    MergeLength(cs);
  }

  lemma {:induction false} WellFormedHasNoStray(s: string)
    requires WellFormed(s)
    ensures (forall t <- Tokens(s) :: t != Plain('%')) && NoStray(Tokens(s))
    decreases |s|
  {
    if s != "" {
      WellFormedHasNoStray(s[if IsTriplet(s) then 3 else 1..]);
    }
    assert forall i: nat :: StrayAt(Tokens(s), i) ==> Tokens(s)[i] in Tokens(s);
  }

  /** Paths that differ only by hexadecimal case and encoded unreserved characters have one normal form;
      where no bare `%` would be completed, only they do. */
  lemma {:induction false} SameNormalForm(s: string, t: string)
    ensures SameTokens(Tokens(s), Tokens(t)) ==> Normalize(s) == Normalize(t)
    ensures NoStray(Tokens(s)) && NoStray(Tokens(t)) ==>
      (Normalize(s) == Normalize(t) <==> SameTokens(Tokens(s), Tokens(t)))
  {
    NormalTokens(s);
    NormalTokens(t);
    TokensAreBytes(s);
    TokensAreBytes(t);
    StraysOfCanon(Tokens(s));
    StraysOfCanon(Tokens(t));
    MergeLength(CanonAll(Tokens(s)));
    MergeLength(CanonAll(Tokens(t)));
    NormalizeShows(s);
    NormalizeShows(t);
    SameCanon(Tokens(s), Tokens(t));
  }

  // ---------- one normal form, for any paths ----------

  /** A bare `%` that two plain upper-case digits complete is printed as an encoding is. */
  predicate FusedAt(ts: seq<Token>) {
    StrayAt(ts, 0) && UpperChar(Canon(ts[1]).c) == Canon(ts[1]).c && UpperChar(Canon(ts[2]).c) == Canon(ts[2]).c
  }

  /** The tokens with those read as the encodings they are printed as. */
  function Fuse(ts: seq<Token>): seq<Token> {
    if ts == [] then []
    else if FusedAt(ts) then [Encoded(StrayByte(ts))] + Fuse(ts[3..])
    else [ts[0]] + Fuse(ts[1..])
  }

  predicate IsUpperTriplet(s: string) {
    IsTriplet(s) && UpperChar(s[1]) == s[1] && UpperChar(s[2]) == s[2]
  }

  /** What a text prints, where only upper-case digits make an encoding. */
  function Reread(s: string): seq<Token> {
    if s == "" then []
    else if IsUpperTriplet(s) then [Encoded(ByteOf(s[1], s[2]))] + Reread(s[3..])
    else [Plain(s[0])] + Reread(s[1..])
  }

  lemma {:induction false} EncodedReread(v: nat, rest: string)
    requires v < 256
    ensures Reread(Show(Encoded(v)) + rest) == [Encoded(v)] + Reread(rest)
  {
    var s := Show(Encoded(v)) + rest;
    UpperDigitValue(v / 16);
    UpperDigitValue(v % 16);
    assert s[0] == '%' && s[1] == UpperDigit(v / 16) && s[2] == UpperDigit(v % 16) && s[3..] == rest;
  }

  lemma {:induction false} FusedShown(ts: seq<Token>)
    requires Bytes(ts) && Canonical(ts) && FusedAt(ts)
    ensures Bytes(ts[3..]) && Canonical(ts[3..])
    ensures ShowAll(ts) == Show(Encoded(StrayByte(ts))) + ShowAll(ts[3..])
  {
    assert ts[1] in ts && ts[2] in ts && forall t <- ts[3..] :: t in ts;
    StrayShown(ts);
    UpperDigitOf(ts[1].c);
    UpperDigitOf(ts[2].c);
    var v := StrayByte(ts);
    assert v / 16 == DigitValue(ts[1].c) && v % 16 == DigitValue(ts[2].c);
  }

  lemma {:induction false} PlainReread(ts: seq<Token>)
    requires Bytes(ts) && Canonical(ts) && ts != [] && ts[0].Plain? && !FusedAt(ts)
    ensures Bytes(ts[1..]) && Reread(ShowAll(ts)) == [ts[0]] + Reread(ShowAll(ts[1..]))
  {
    assert forall t <- ts[1..] :: t in ts;
    var s := ShowAll(ts);
    assert s[0] == ts[0].c && s[1..] == ShowAll(ts[1..]);
    if ts[0].c == '%' {
      HeadShown(ts);
      if StrayAt(ts, 0) {
        assert ts[1] in ts && ts[2] in ts && s[1] == ts[1].c && s[2] == ts[2].c;
      }
    }
  }

  lemma {:induction false} FuseIsReread(ts: seq<Token>)
    requires Bytes(ts) && Canonical(ts)
    ensures Reread(ShowAll(ts)) == Fuse(ts)
    decreases |ts|
  {
    if ts != [] {
      assert ts[0] in ts && forall t <- ts[1..] :: t in ts;
      if FusedAt(ts) {
        FusedShown(ts);
        FuseIsReread(ts[3..]);
        EncodedReread(StrayByte(ts), ShowAll(ts[3..]));
      } else if ts[0].Encoded? {
        FuseIsReread(ts[1..]);
        EncodedReread(ts[0].v, ShowAll(ts[1..]));
      } else {
        FuseIsReread(ts[1..]);
        PlainReread(ts);
      }
    }
  }

  lemma {:induction false} FuseShows(ts: seq<Token>)
    requires Bytes(ts) && Canonical(ts)
    ensures Bytes(Fuse(ts)) && ShowAll(Fuse(ts)) == ShowAll(ts)
    decreases |ts|
  {
    if ts != [] {
      assert ts[0] in ts && forall t <- ts[1..] :: t in ts;
      if FusedAt(ts) {
        FusedShown(ts);
        FuseShows(ts[3..]);
      } else {
        FuseShows(ts[1..]);
      }
    }
  }

  /** Any two paths have one normal form exactly when they are the same up to hexadecimal case, encoded
      unreserved characters, and encodings made of a bare `%` and two upper-case digits. */
  lemma {:induction false} SameNormalFormWhen(s: string, t: string)
    ensures Normalize(s) == Normalize(t) <==> Fuse(CanonAll(Tokens(s))) == Fuse(CanonAll(Tokens(t)))
  {
    TokensAreBytes(s);
    TokensAreBytes(t);
    StraysOfCanon(Tokens(s));
    StraysOfCanon(Tokens(t));
    NormalizeShows(s);
    NormalizeShows(t);
    FuseIsReread(CanonAll(Tokens(s)));
    FuseIsReread(CanonAll(Tokens(t)));
    FuseShows(CanonAll(Tokens(s)));
    FuseShows(CanonAll(Tokens(t)));
  }

  /** Such paths can have one normal form and mean different things: `%`, `2`, `F` and a slash. */
  lemma FusedCounterexample()
    ensures Normalize("%%32%46") == Normalize("%2F") && !SameTokens(Tokens("%%32%46"), Tokens("%2F"))
  {
    assert "%%32%46"[1..] == "%32%46" && "%32%46"[3..] == "%46" && "%46"[3..] == "" && "%2F"[3..] == "";
    assert Tokens("%%32%46") == [Plain('%'), Encoded(0x32), Encoded(0x46)];
    assert Tokens("%2F") == [Encoded(0x2F)];
  }

  lemma {:induction false} SameCanon(a: seq<Token>, b: seq<Token>)
    requires Bytes(a) && Bytes(b)
    ensures CanonAll(a) == CanonAll(b) <==> SameTokens(a, b)
  {
    forall i | 0 <= i < |a| && i < |b|
      ensures Canon(a[i]) == Canon(b[i]) <==> SameToken(a[i], b[i])
    {
      assert a[i] in a && b[i] in b;
      assert !Unreserved('%');
    }
    if CanonAll(a) == CanonAll(b) {
      assert |a| == |b|;
      forall i | 0 <= i < |a|
        ensures SameToken(a[i], b[i])
      {
        assert CanonAll(a)[i] == CanonAll(b)[i];
      }
    }
  }

  /** The completed encoding is already normal: reserved, with upper-case digits. */
  predicate Settled(ts: seq<Token>, i: nat)
    requires StrayAt(ts, i)
  {
    var high, low := Canon(ts[i + 1]).c, Canon(ts[i + 2]).c;
    NormalizeTriplet(high, low) == ['%', high, low]
  }

  ghost predicate AllSettled(ts: seq<Token>) {
    forall i: nat :: StrayAt(ts, i) ==> Settled(ts, i)
  }

  lemma {:induction false} MergeBytes(ts: seq<Token>)
    requires Bytes(ts)
    ensures Bytes(Merge(ts)) && Bytes(CanonAll(Merge(ts)))
    decreases |ts|
  {
    if ts != [] {
      assert ts[0] in ts;
      if StrayAt(ts, 0) {
        assert forall t <- ts[3..] :: t in ts;
        MergeBytes(ts[3..]);
      } else {
        assert forall t <- ts[1..] :: t in ts;
        MergeBytes(ts[1..]);
      }
      CanonBytes(Merge(ts));
    }
  }

  lemma SettledHead(ts: seq<Token>)
    requires ts != [] && !StrayAt(ts, 0)
    ensures AllSettled(ts) <==> AllSettled(ts[1..])
  {
    assert forall i: nat :: StrayAt(ts[1..], i) <==> StrayAt(ts, i + 1);
    if AllSettled(ts) {
      forall i: nat | StrayAt(ts[1..], i)
        ensures Settled(ts[1..], i)
      {
        assert Settled(ts, i + 1);
      }
    }
    if AllSettled(ts[1..]) {
      forall i: nat | StrayAt(ts, i)
        ensures Settled(ts, i)
      {
        assert StrayAt(ts[1..], i - 1);
      }
    }
  }

  lemma SettledStray(ts: seq<Token>)
    requires StrayAt(ts, 0)
    ensures AllSettled(ts) <==> Settled(ts, 0) && AllSettled(ts[3..])
  {
    assert !IsHex('%');
    assert !StrayAt(ts, 1) && !StrayAt(ts, 2);
    assert forall i: nat :: StrayAt(ts[3..], i) <==> StrayAt(ts, i + 3);
    if AllSettled(ts) {
      forall i: nat | StrayAt(ts[3..], i)
        ensures Settled(ts[3..], i)
      {
        assert Settled(ts, i + 3);
      }
    }
    if Settled(ts, 0) && AllSettled(ts[3..]) {
      forall i: nat | StrayAt(ts, i)
        ensures Settled(ts, i)
      {
        assert i != 0 ==> StrayAt(ts[3..], i - 3);
      }
    }
  }

  lemma {:induction false} StrayShown(ts: seq<Token>)
    requires Bytes(ts) && Canonical(ts) && StrayAt(ts, 0)
    ensures Bytes(ts[3..]) && ShowAll(ts) == ['%', ts[1].c, ts[2].c] + ShowAll(ts[3..])
  {
    assert ts[1] in ts && ts[2] in ts && forall t <- ts[3..] :: t in ts;
    HeadShown(ts);
  }

  lemma {:induction false} MergeShown(ts: seq<Token>)
    requires Bytes(ts) && Canonical(ts) && Bytes(CanonAll(Merge(ts)))
    ensures |ShowAll(CanonAll(Merge(ts)))| <= |ShowAll(ts)|
    ensures ShowAll(CanonAll(Merge(ts))) == ShowAll(ts) <==> AllSettled(ts)
    decreases |ts|
  {
    if ts == [] {
      assert forall i: nat :: !StrayAt(ts, i);
    } else if StrayAt(ts, 0) {
      var rest := ts[3..];
      assert (forall t <- rest :: t in ts) && ts[1] in ts && ts[2] in ts;
      StrayShown(ts);
      SettledStray(ts);
      MergeBytes(rest);
      MergeShown(rest);
      TripletShown(ts[1].c, ts[2].c);
      var first := NormalizeTriplet(ts[1].c, ts[2].c);
      assert CanonAll(Merge(ts)) == [Canon(Encoded(StrayByte(ts)))] + CanonAll(Merge(rest));
      assert ShowAll(CanonAll(Merge(ts))) == first + ShowAll(CanonAll(Merge(rest)));
      SameParts(first, ShowAll(CanonAll(Merge(rest))), ['%', ts[1].c, ts[2].c], ShowAll(rest));
    } else {
      var rest := ts[1..];
      assert (forall t <- rest :: t in ts) && ts[0] in ts;
      SettledHead(ts);
      MergeBytes(rest);
      MergeShown(rest);
      assert CanonAll(Merge(ts)) == [ts[0]] + CanonAll(Merge(rest));
      SameParts(Show(ts[0]), ShowAll(CanonAll(Merge(rest))), Show(ts[0]), ShowAll(rest));
    }
  }

  lemma SameParts<T>(a: seq<T>, b: seq<T>, x: seq<T>, y: seq<T>)
    requires |a| <= |x| && |b| <= |y|
    ensures a + b == x + y <==> a == x && b == y
  {
    if a + b == x + y {
      assert |a| == |x|;
      assert (a + b)[..|a|] == a && (x + y)[..|x|] == x && (a + b)[|a|..] == b && (x + y)[|x|..] == y;
    }
  }

  /** Normalising twice is normalising once exactly when no completed encoding still needs it. */
  lemma {:induction false} IdempotentWhen(s: string)
    ensures Normalize(Normalize(s)) == Normalize(s) <==> AllSettled(Tokens(s))
  {
    var cs := CanonAll(Tokens(s));
    NormalTokens(s);
    NormalizeShows(s);
    NormalizeShows(Normalize(s));
    TokensAreBytes(s);
    StraysOfCanon(Tokens(s));
    MergeShown(cs);
    SettledOfCanon(Tokens(s));
  }

  lemma {:induction false} SettledOfCanon(ts: seq<Token>)
    requires Bytes(ts)
    ensures AllSettled(CanonAll(ts)) <==> AllSettled(ts)
  {
    var cs := CanonAll(ts);
    forall i: nat
      ensures StrayAt(cs, i) <==> StrayAt(ts, i)
      ensures StrayAt(ts, i) ==> (Settled(cs, i) <==> Settled(ts, i))
    {
      StrayOfCanon(ts, i);
      if StrayAt(ts, i) {
        CanonTwice(ts[i + 1]);
        CanonTwice(ts[i + 2]);
      }
    }
    if AllSettled(cs) {
      forall i: nat | StrayAt(ts, i)
        ensures Settled(ts, i)
      {
        assert StrayAt(cs, i) && Settled(cs, i);
      }
    }
    if AllSettled(ts) {
      forall i: nat | StrayAt(cs, i)
        ensures Settled(cs, i)
      {
        assert StrayAt(ts, i) && Settled(ts, i);
      }
    }
  }

  /** A malformed path on which one pass is not enough, and which changes what it says. */
  lemma MalformedCounterexample()
    ensures Normalize("%%34%31") == "%41" && Normalize("%41") == "A"
    ensures Decode("%%34%31") == ['%' as nat, '4' as nat, '1' as nat] && Decode("%41") == ['A' as nat]
  {
    assert "%%34%31"[1..] == "%34%31" && "%34%31"[3..] == "%31" && "%31"[3..] == "" && "%41"[3..] == "";
    assert Tokens("%%34%31") == [Plain('%'), Encoded(0x34), Encoded(0x31)];
  }

  // ---------- with slashes collapsed ----------

  function CollapseTokens(ts: seq<Token>): seq<Token> {
    if |ts| >= 2 && ts[0] == Plain('/') && ts[1] == Plain('/') then CollapseTokens(ts[1..])
    else if ts == [] then []
    else [ts[0]] + CollapseTokens(ts[1..])
  }

  lemma {:induction false} CollapseTokensKeeps(ts: seq<Token>)
    ensures forall t <- CollapseTokens(ts) :: t in ts
    ensures ts != [] ==> CollapseTokens(ts) != [] && CollapseTokens(ts)[0] == ts[0]
    ensures CollapseTokens(CollapseTokens(ts)) == CollapseTokens(ts)
  {
    if ts != [] {
      CollapseTokensKeeps(ts[1..]);
      if !(|ts| >= 2 && ts[0] == Plain('/') && ts[1] == Plain('/')) {
        assert CollapseTokens(ts)[1..] == CollapseTokens(ts[1..]);
      }
    }
  }

  lemma {:induction false} CollapseChar(c: char, rest: string)
    requires !(c == '/' && rest != "" && rest[0] == '/')
    ensures Collapse([c] + rest) == [c] + Collapse(rest)
  {
    assert ([c] + rest)[1..] == rest;
  }

  lemma ThreeFirst(a: char, b: char, c: char, rest: string)
    ensures [a, b, c] + rest == [a] + ([b] + ([c] + rest))
  {
  }

  lemma {:induction false} CollapseThree(a: char, b: char, c: char, rest: string)
    requires a != '/' && b != '/' && c != '/'
    ensures Collapse([a, b, c] + rest) == [a, b, c] + Collapse(rest)
  {
    CollapseChar(c, rest);
    CollapseChar(b, [c] + rest);
    CollapseChar(a, [b] + ([c] + rest));
    ThreeFirst(a, b, c, rest);
    ThreeFirst(a, b, c, Collapse(rest));
  }

  lemma {:induction false} CollapseShown(t: Token, rest: string)
    requires (t.Encoded? ==> t.v < 256) && !(t == Plain('/') && rest != "" && rest[0] == '/')
    ensures Collapse(Show(t) + rest) == Show(t) + Collapse(rest)
  {
    if t.Plain? {
      CollapseChar(t.c, rest);
    } else {
      UpperDigitValue(t.v / 16);
      UpperDigitValue(t.v % 16);
      assert !IsHex('/');
      CollapseThree('%', UpperDigit(t.v / 16), UpperDigit(t.v % 16), rest);
    }
  }

  /** Slashes collapse the same way on text and on tokens: an encoded slash is not one. */
  lemma {:induction false} CollapseShows(ts: seq<Token>)
    requires Bytes(ts)
    ensures Bytes(CollapseTokens(ts)) && Collapse(ShowAll(ts)) == ShowAll(CollapseTokens(ts))
    decreases |ts|
  {
    CollapseTokensKeeps(ts);
    if ts != [] {
      var rest := ts[1..];
      assert (forall t <- rest :: t in ts) && ts[0] in ts;
      CollapseShows(rest);
      if rest != [] {
        assert rest[0] in ts && ShowAll(rest)[0] == Show(rest[0])[0];
      }
      if |ts| >= 2 && ts[0] == Plain('/') && ts[1] == Plain('/') {
        assert ShowAll(ts)[1..] == ShowAll(rest);
      } else {
        CollapseShown(ts[0], ShowAll(rest));
      }
    }
  }

  lemma {:induction false} CanonicalIsFixed(ts: seq<Token>)
    requires Canonical(ts)
    ensures CanonAll(ts) == ts
  {
  }

  /** On well-formed paths the whole normalisation is idempotent. */
  lemma {:induction false} PathIdempotent(s: string)
    requires WellFormed(s)
    ensures NormalizePath(NormalizePath(s)) == NormalizePath(s)
  {
    var ts := Tokens(s);
    var cs := CanonAll(ts);
    var once := CollapseTokens(cs);
    WellFormedHasNoStray(s);
    TokensAreBytes(s);
    CanonBytes(ts);
    StraysOfCanon(ts);
    NormalizeShows(s);
    CollapseShows(cs);
    CollapseTokensKeeps(cs);
    forall t <- once
      ensures t != Plain('%')
    {
      var i :| 0 <= i < |ts| && cs[i] == t;
      assert ts[i] in ts && !Unreserved('%');
    }
    assert NoStray(once) by {
      assert forall i: nat :: StrayAt(once, i) ==> once[i] in once;
    }
    TokensShow(once);
    MergeLength(once);
    CanonicalIsFixed(once);
    NormalizeShows(NormalizePath(s));
    CollapseShows(once);
  }
}
