/**
  A concrete signing scheme that meets `Jwt.Lawful`, so that the lemmas
  which assume the laws are not vacuous. A token is three dot-separated
  segments: the subject, the expiry and a tag standing for the signature.
  Characters that would clash with the format are escaped. The tag is an
  ideal MAC: it identifies the key, which is all the laws ask; it is not
  HMAC and keeps nothing secret.
 */
module TokenWitness {
  import opened Wrappers
  import opened Text
  import opened Jwt

  const Dot: char := '.'
  const Esc: char := '\\'
  /** Escaped characters are shifted into the top plane, clear of every
      whitespace character, the dot and the escape. */
  const Shift: int := 0x10_0000

  /** Characters that may not appear bare inside a segment. */
  predicate Reserved(c: char) {
    IsSpace(c) || c == Dot || c == Esc
  }

  /** A segment character: neither whitespace nor the separator. */
  predicate Plain(s: string) {
    forall i :: 0 <= i < |s| ==> !IsSpace(s[i]) && s[i] != Dot
  }

  function EscapeChar(c: char): (e: string)
    ensures Plain(e)
  {
    if Reserved(c) then [Esc, (c as int + Shift) as char] else [c]
  }

  function Escape(s: string): (e: string)
    ensures Plain(e)
  {
    if s == [] then [] else EscapeChar(s[0]) + Escape(s[1..])
  }

  function Unescape(e: string): Option<string>
    decreases |e|
  {
    if e == [] then Some([])
    else if e[0] == Esc then
      if |e| < 2 || e[1] as int < Shift || e[1] as int - Shift >= 0xD800 then None
      else match Unescape(e[2..])
        case None => None
        case Some(t) => Some([(e[1] as int - Shift) as char] + t)
    else match Unescape(e[1..])
      case None => None
      case Some(t) => Some([e[0]] + t)
  }

  lemma {:induction false} UnescapeEscape(s: string)
    ensures Unescape(Escape(s)) == Some(s)
  {
    if s != [] {
      var e, rest := EscapeChar(s[0]), Escape(s[1..]);
      assert Escape(s) == e + rest;
      UnescapeEscape(s[1..]);
      if Reserved(s[0]) {
        assert (e + rest)[2..] == rest;
      } else {
        assert (e + rest)[1..] == rest;
      }
      assert s == [s[0]] + s[1..];
    }
  }

  function DigitChar(d: int): char
    requires 0 <= d < 10
  {
    ('0' as int + d) as char
  }

  predicate AllDigits(s: string) {
    forall i :: 0 <= i < |s| ==> '0' <= s[i] <= '9'
  }

  /** The decimal numeral of `n`. */
  function ShowNat(n: nat): (s: string)
    ensures s != [] && AllDigits(s)
  {
    if n < 10 then [DigitChar(n)] else ShowNat(n / 10) + [DigitChar(n % 10)]
  }

  /** The value of a string of decimal digits. */
  function DigitsValue(s: string): nat
    requires AllDigits(s)
  {
    if s == [] then 0 else DigitsValue(s[..|s| - 1]) * 10 + (s[|s| - 1] as int - '0' as int)
  }

  lemma {:induction false} DigitsValueShowNat(n: nat)
    ensures DigitsValue(ShowNat(n)) == n
  {
    if n >= 10 {
      var s := ShowNat(n);
      assert s[..|s| - 1] == ShowNat(n / 10);
      DigitsValueShowNat(n / 10);
    }
  }

  /** An integer as a sign and a numeral. */
  function ShowInt(i: int): string {
    if i >= 0 then ['+'] + ShowNat(i) else ['-'] + ShowNat(-i)
  }

  function ReadInt(s: string): Option<int> {
    if |s| < 2 || !AllDigits(s[1..]) then None
    else if s[0] == '+' then Some(DigitsValue(s[1..]))
    else if s[0] == '-' then Some(0 - DigitsValue(s[1..]))
    else None
  }

  lemma ReadShowInt(i: int)
    ensures ReadInt(ShowInt(i)) == Some(i)
  {
    if i >= 0 {
      assert ShowInt(i)[1..] == ShowNat(i);
      DigitsValueShowNat(i);
    } else {
      assert ShowInt(i)[1..] == ShowNat(-i);
      DigitsValueShowNat(-i);
    }
  }

  function SubSegment(sub: Option<string>): string {
    match sub
    case None => "!"
    case Some(s) => "=" + Escape(s)
  }

  function ReadSubSegment(seg: string): Option<Option<string>> {
    if seg == "!" then Some(None)
    else if seg != [] && seg[0] == '=' then
      match Unescape(seg[1..])
      case None => None
      case Some(s) => Some(Some(s))
    else None
  }

  function ExpSegment(exp: Option<int>): string {
    match exp
    case None => "!"
    case Some(i) => ShowInt(i)
  }

  function ReadExpSegment(seg: string): Option<Option<int>> {
    if seg == "!" then Some(None)
    else match ReadInt(seg)
      case None => None
      case Some(i) => Some(Some(i))
  }

  lemma ReadSubSegmentOf(sub: Option<string>)
    ensures ReadSubSegment(SubSegment(sub)) == Some(sub)
    ensures Plain(SubSegment(sub))
  {
    if sub.Some? {
      var e := Escape(sub.value);
      assert SubSegment(sub) == ['='] + e;
      assert (['='] + e)[1..] == e;
      UnescapeEscape(sub.value);
    }
  }

  lemma ReadExpSegmentOf(exp: Option<int>)
    ensures ReadExpSegment(ExpSegment(exp)) == Some(exp)
    ensures Plain(ExpSegment(exp))
  {
    if exp.Some? {
      ReadShowInt(exp.value);
      assert ExpSegment(exp)[0] != '!';
    }
  }

  /** `s.split(d)`. */
  function SplitOn(s: string, d: char): (parts: seq<string>)
    ensures |parts| >= 1
  {
    if s == [] then [[]]
    else
      var rest := SplitOn(s[1..], d);
      if s[0] == d then [[]] + rest else [[s[0]] + rest[0]] + rest[1..]
  }

  lemma {:induction false} SplitOnPlain(a: string, d: char)
    requires d !in a
    ensures SplitOn(a, d) == [a]
  {
    if a != [] {
      SplitOnPlain(a[1..], d);
      assert a == [a[0]] + a[1..];
    }
  }

  lemma {:induction false} SplitOnAfter(a: string, d: char, rest: string)
    requires d !in a
    ensures SplitOn(a + [d] + rest, d) == [a] + SplitOn(rest, d)
  {
    if a == [] {
      assert (a + [d] + rest)[1..] == rest;
    } else {
      assert (a + [d] + rest)[1..] == a[1..] + [d] + rest;
      SplitOnAfter(a[1..], d, rest);
      assert a == [a[0]] + a[1..];
    }
  }

  function Sign(c: Claims, key: string): string {
    SubSegment(c.sub) + [Dot] + ExpSegment(c.exp) + [Dot] + Escape(key)
  }

  function Verify(token: string, key: string): Verification {
    var segments := SplitOn(token, Dot);
    if |segments| != 3 then Malformed
    else match (ReadSubSegment(segments[0]), ReadExpSegment(segments[1]), Unescape(segments[2]))
      case (Some(sub), Some(exp), Some(signer)) =>
        if signer == key then Verified(Claims(sub, exp)) else BadSignature
      case _ => Malformed
  }

  const Witness: Codec := Codec(Sign, Verify)

  lemma PlainNoDot(s: string)
    requires Plain(s)
    ensures Dot !in s
  {
  }

  /** A signed token splits at its dots into its three segments. */
  lemma SignSplits(c: Claims, key: string)
    ensures SplitOn(Sign(c, key), Dot) == [SubSegment(c.sub), ExpSegment(c.exp), Escape(key)]
  {
    var a, b, k := SubSegment(c.sub), ExpSegment(c.exp), Escape(key);
    ReadSubSegmentOf(c.sub);
    ReadExpSegmentOf(c.exp);
    PlainNoDot(a);
    PlainNoDot(b);
    PlainNoDot(k);
    assert Sign(c, key) == a + [Dot] + (b + [Dot] + k);
    SplitOnAfter(a, Dot, b + [Dot] + k);
    SplitOnAfter(b, Dot, k);
    SplitOnPlain(k, Dot);
  }

  lemma SignVerifies(c: Claims, key: string, other: string)
    ensures Verify(Sign(c, key), other) == if other == key then Verified(c) else BadSignature
  {
    SignSplits(c, key);
    ReadSubSegmentOf(c.sub);
    ReadExpSegmentOf(c.exp);
    UnescapeEscape(key);
  }

  lemma SignIsWord(c: Claims, key: string)
    ensures IsWord(Sign(c, key))
  {
    var a, b, k := SubSegment(c.sub), ExpSegment(c.exp), Escape(key);
    ReadSubSegmentOf(c.sub);
    ReadExpSegmentOf(c.exp);
    assert !IsSpace(Dot);
  }

  /** The witness scheme obeys the laws. */
  lemma WitnessLawful()
    ensures Lawful(Witness)
  {
    forall c, key ensures Witness.verify(Witness.sign(c, key), key) == Verified(c) {
      SignVerifies(c, key, key);
    }
    forall c, key, other | other != key
      ensures Witness.verify(Witness.sign(c, key), other) == BadSignature
    {
      SignVerifies(c, key, other);
    }
    forall c, key ensures IsWord(Witness.sign(c, key)) {
      SignIsWord(c, key);
    }
  }
}
