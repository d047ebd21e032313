/**
  Whitespace and word splitting as Python's `str.split()` (called with no
  separator) performs them. The middleware cuts the bearer token out of the
  Authorization header with it.
 */
module Text {

  /** The characters for which Python's `str.isspace()` holds; `str.split()`
      cuts at runs of them. */
  predicate IsSpace(c: char) {
    var n := c as int;
    || 0x09 <= n <= 0x0D
    || 0x1C <= n <= 0x20
    || n == 0x85 || n == 0xA0 || n == 0x1680
    || 0x2000 <= n <= 0x200A
    || n == 0x2028 || n == 0x2029 || n == 0x202F || n == 0x205F || n == 0x3000
  }

  /** A non-empty run of non-space characters. */
  predicate IsWord(s: string) {
    s != [] && forall i :: 0 <= i < |s| ==> !IsSpace(s[i])
  }

  /** A string of spaces only (possibly empty). */
  predicate IsBlank(s: string) {
    forall i :: 0 <= i < |s| ==> IsSpace(s[i])
  }

  /** The longest prefix of `s` that holds no whitespace. */
  function TakeWord(s: string): (w: string)
    ensures |w| <= |s| && w == s[..|w|]
    ensures forall i :: 0 <= i < |w| ==> !IsSpace(w[i])
    ensures |w| < |s| ==> IsSpace(s[|w|])
  {
    if s != [] && !IsSpace(s[0]) then [s[0]] + TakeWord(s[1..]) else []
  }

  /** `s.split()`: the maximal runs of non-space characters of `s`, in order. */
  function Words(s: string): (ws: seq<string>)
    ensures forall i :: 0 <= i < |ws| ==> IsWord(ws[i])
    decreases |s|
  {
    if s == [] then []
    else if IsSpace(s[0]) then Words(s[1..])
    else
      var w := TakeWord(s);
      [w] + Words(s[|w|..])
  }

  /** `" ".join(ws)`. */
  function Join(ws: seq<string>): string {
    if ws == [] then []
    else if |ws| == 1 then ws[0]
    else ws[0] + " " + Join(ws[1..])
  }

  /** Leading whitespace does not change the split. */
  lemma {:induction false} WordsSkipBlank(sep: string, rest: string)
    requires IsBlank(sep)
    ensures Words(sep + rest) == Words(rest)
  {
    if sep == [] {
      assert sep + rest == rest;
    } else {
      assert (sep + rest)[1..] == sep[1..] + rest;
      WordsSkipBlank(sep[1..], rest);
    }
  }

  lemma {:induction false} TakeWordOf(w: string, tail: string)
    requires forall i :: 0 <= i < |w| ==> !IsSpace(w[i])
    requires tail == [] || IsSpace(tail[0])
    ensures TakeWord(w + tail) == w
  {
    if w == [] {
      assert w + tail == tail;
    } else {
      assert (w + tail)[1..] == w[1..] + tail;
      TakeWordOf(w[1..], tail);
    }
  }

  /** A blank string has no words at all. */
  lemma WordsOfBlank(s: string)
    requires IsBlank(s)
    ensures Words(s) == []
  {
    WordsSkipBlank(s, []);
    assert s + [] == s;
  }

  /** A string that is one word splits into just that word. */
  lemma WordsOfWord(w: string)
    requires IsWord(w)
    ensures Words(w) == [w]
  {
    TakeWordOf(w, []);
    assert w + [] == w;
    assert w[|w|..] == [];
  }

  /** A word followed by whitespace is split off as the first word. */
  lemma WordsAfterWord(w: string, sep: string, rest: string)
    requires IsWord(w) && sep != [] && IsBlank(sep)
    ensures Words(w + sep + rest) == [w] + Words(rest)
  {
    var s := w + sep + rest;
    assert s == w + (sep + rest);
    TakeWordOf(w, sep + rest);
    assert s[|w|..] == sep + rest;
    WordsSkipBlank(sep, rest);
  }

  /** Splitting undoes joining with single spaces: `" ".join(ws).split() == ws`
      for words `ws`. */
  lemma {:induction false} WordsOfJoin(ws: seq<string>)
    requires forall i :: 0 <= i < |ws| ==> IsWord(ws[i])
    ensures Words(Join(ws)) == ws
  {
    if ws == [] {
    } else if |ws| == 1 {
      WordsOfWord(ws[0]);
    } else {
      var rest := ws[1..];
      forall i | 0 <= i < |rest| ensures IsWord(rest[i]) {
        assert rest[i] == ws[i + 1];
      }
      WordsOfJoin(rest);
      assert IsBlank(" ");
      WordsAfterWord(ws[0], " ", Join(rest));
      calc {
        Words(Join(ws));
        Words(ws[0] + " " + Join(rest));
        [ws[0]] + Words(Join(rest));
        [ws[0]] + rest;
        ws;
      }
    }
  }

  /** A word followed by nothing or by whitespace is the first word. */
  lemma WordsStartWith(w: string, tail: string)
    requires IsWord(w) && (tail == [] || IsSpace(tail[0]))
    ensures Words(w + tail) == [w] + Words(tail)
  {
    TakeWordOf(w, tail);
    assert (w + tail)[|w|..] == tail;
  }

  /** In `lead + scheme + sep + token + tail`, with any leading whitespace,
      any scheme word, any non-empty run of whitespace before the token and
      whatever follows the token after whitespace, the second word is the
      token. */
  lemma SecondWordIs(lead: string, scheme: string, sep: string, token: string, tail: string)
    requires IsBlank(lead) && IsWord(scheme) && sep != [] && IsBlank(sep) && IsWord(token)
    requires tail == [] || IsSpace(tail[0])
    ensures |Words(lead + scheme + sep + token + tail)| >= 2
    ensures Words(lead + scheme + sep + token + tail)[1] == token
  {
    var rest := scheme + sep + (token + tail);
    assert lead + scheme + sep + token + tail == lead + rest;
    WordsSkipBlank(lead, rest);
    WordsAfterWord(scheme, sep, token + tail);
    WordsStartWith(token, tail);
    assert Words(lead + rest) == [scheme] + ([token] + Words(tail));
  }
}
