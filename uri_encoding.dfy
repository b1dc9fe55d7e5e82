/**
 * `encodeURIComponent` (ECMA-262 section 19.2.6, URI Handling Functions),
 * used by the client to escape every path-parameter value, together with
 * `decodeURIComponent` from the same section, the inverse a receiving
 * router applies to recover the value.
 *
 * Dafny's `char` is a Unicode scalar value, so a string here is always a
 * well-formed UTF-16 string in JavaScript terms: the lone-surrogate
 * `URIError` of the encoder cannot arise.
 */
module UriEncoding {
  import opened Results

  /** The characters `encodeURIComponent` leaves as they are:
      ASCII letters, decimal digits and the marks `-_.!~*'()`. */
  predicate IsUnreserved(c: char) {
    ('A' <= c <= 'Z') || ('a' <= c <= 'z') || ('0' <= c <= '9') ||
    c == '-' || c == '_' || c == '.' || c == '!' || c == '~' || c == '*' ||
    c == '\'' || c == '(' || c == ')'
  }

  /** A character that may appear in the output of `EncodeComponent`. */
  predicate IsEncodedChar(c: char) {
    IsUnreserved(c) || c == '%'
  }

  /** Upper-case hexadecimal digit, as the percent escapes use. */
  function HexDigit(d: nat): (c: char)
    requires d < 16
    ensures IsUnreserved(c)
  {
    if d < 10 then ('0' as int + d) as char else ('A' as int + d - 10) as char
  }

  /** The value of a hexadecimal digit of either case. */
  function HexValue(c: char): (r: Option<nat>)
    ensures r.Some? ==> r.value < 16
  {
    if '0' <= c <= '9' then Some(c as int - '0' as int)
    else if 'A' <= c <= 'F' then Some(c as int - 'A' as int + 10)
    else if 'a' <= c <= 'f' then Some(c as int - 'a' as int + 10)
    else None
  }

  /** The octets of the UTF-8 encoding of a code point. */
  function Utf8(cp: nat): (octets: seq<nat>)
    requires cp < 0x11_0000
    ensures 1 <= |octets| <= 4
    ensures forall i :: 0 <= i < |octets| ==> octets[i] < 256
  {
    if cp < 0x80 then [cp]
    else if cp < 0x800 then [0xC0 + cp / 64, 0x80 + cp % 64]
    else if cp < 0x1_0000 then [0xE0 + cp / 4096, 0x80 + (cp / 64) % 64, 0x80 + cp % 64]
    else [0xF0 + cp / 262144, 0x80 + (cp / 4096) % 64, 0x80 + (cp / 64) % 64, 0x80 + cp % 64]
  }

  /** `%XX` for one octet. */
  function Escape(b: nat): (s: string)
    requires b < 256
    ensures |s| == 3 && s[0] == '%'
  {
    ['%', HexDigit(b / 16), HexDigit(b % 16)]
  }

  function EscapeAll(octets: seq<nat>): (s: string)
    requires forall i :: 0 <= i < |octets| ==> octets[i] < 256
    ensures |s| == 3 * |octets|
    ensures forall i :: 0 <= i < |s| ==> IsEncodedChar(s[i])
  {
    if octets == [] then [] else Escape(octets[0]) + EscapeAll(octets[1..])
  }

  /** One character of input: kept when unreserved, else its UTF-8 octets escaped. */
  function EncodeChar(c: char): (s: string)
    ensures |s| > 0
    ensures forall i :: 0 <= i < |s| ==> IsEncodedChar(s[i])
  {
    if IsUnreserved(c) then [c] else EscapeAll(Utf8(c as int))
  }

  /** `encodeURIComponent`: every output character is unreserved or `%`, so
      in particular the output holds no `/`, no `:` and no `$`; it is empty
      exactly when the input is. */
  function EncodeComponent(s: string): (r: string)
    ensures |r| >= |s|
    ensures r == [] <==> s == []
    ensures forall i :: 0 <= i < |r| ==> IsEncodedChar(r[i])
  {
    if s == [] then [] else EncodeChar(s[0]) + EncodeComponent(s[1..])
  }

  /** The octet written as `%XX` at position `k`, if there is one. */
  function OctetAt(s: string, k: nat): (r: Option<nat>)
    ensures r.Some? ==> k + 3 <= |s| && r.value < 256
  {
    if k + 3 <= |s| && s[k] == '%' && HexValue(s[k + 1]).Some? && HexValue(s[k + 2]).Some? then
      Some(16 * HexValue(s[k + 1]).value + HexValue(s[k + 2]).value)
    else None
  }

  /** Reads `count` continuation octets `10xxxxxx` starting at `k`, folding
      their payload bits into `acc`. */
  function Continuation(s: string, k: nat, count: nat, acc: nat): (r: Option<nat>)
    decreases count
  {
    if count == 0 then Some(acc)
    else
      match OctetAt(s, k)
      case Some(b) =>
        if 0x80 <= b < 0xC0 then Continuation(s, k + 3, count - 1, acc * 64 + (b - 0x80)) else None
      case None => None
  }

  /** Whether an `n`-octet UTF-8 sequence may decode to `cp` (no overlong
      form, no surrogate, nothing above U+10FFFF). */
  predicate WellFormed(n: nat, cp: nat) {
    (n == 2 && 0x80 <= cp < 0x800) ||
    (n == 3 && 0x800 <= cp < 0x1_0000 && !(0xD800 <= cp < 0xE000)) ||
    (n == 4 && 0x1_0000 <= cp < 0x11_0000)
  }

  /** Decodes the escape sequence at the head of `s` (which starts with `%`)
      into one character and the number of input characters it took. */
  function DecodeEscape(s: string): (r: Option<(char, nat)>)
    requires |s| > 0 && s[0] == '%'
    ensures r.Some? ==> 3 <= r.value.1 <= |s|
  {
    match OctetAt(s, 0)
    case None => None
    case Some(b) =>
      if b < 0x80 then Some((b as char, 3))
      else
        var n := if 0xC0 <= b < 0xE0 then 2 else if 0xE0 <= b < 0xF0 then 3 else if 0xF0 <= b < 0xF8 then 4 else 0;
        if n == 0 then None
        else
          var lead := if n == 2 then b - 0xC0 else if n == 3 then b - 0xE0 else b - 0xF0;
          match Continuation(s, 3, n - 1, lead)
          case None => None
          case Some(cp) =>
            if WellFormed(n, cp) && 3 * n <= |s| then Some((cp as char, 3 * n)) else None
  }

  /** `decodeURIComponent`: `None` stands for the `URIError` it throws on a
      malformed escape. */
  function DecodeComponent(s: string): (r: Option<string>)
    decreases |s|
  {
    if s == [] then Some([])
    else if s[0] != '%' then
      match DecodeComponent(s[1..])
      case Some(t) => Some([s[0]] + t)
      case None => None
    else
      match DecodeEscape(s)
      case None => None
      case Some((c, len)) =>
        match DecodeComponent(s[len..])
        case Some(t) => Some([c] + t)
        case None => None
  }

  lemma HexRoundTrip(d: nat)
    requires d < 16
    ensures HexValue(HexDigit(d)) == Some(d)
  {
  }

  lemma EscapeRoundTrip(b: nat, rest: string)
    requires b < 256
    ensures OctetAt(Escape(b) + rest, 0) == Some(b)
  {
    HexRoundTrip(b / 16);
    HexRoundTrip(b % 16);
  }

  /** Reading an escape is local: what precedes it does not matter. */
  lemma OctetAtShift(a: string, b: string, k: nat)
    ensures OctetAt(a + b, |a| + k) == OctetAt(b, k)
  {
    if k + 3 <= |b| {
      assert (a + b)[|a| + k] == b[k];
      assert (a + b)[|a| + k + 1] == b[k + 1];
      assert (a + b)[|a| + k + 2] == b[k + 2];
    }
  }

  lemma {:induction false} ContinuationShift(a: string, b: string, k: nat, count: nat, acc: nat)
    ensures Continuation(a + b, |a| + k, count, acc) == Continuation(b, k, count, acc)
    decreases count
  {
    if count > 0 {
      OctetAtShift(a, b, k);
      match OctetAt(b, k)
      case Some(o) =>
        if 0x80 <= o < 0xC0 {
          ContinuationShift(a, b, k + 3, count - 1, acc * 64 + (o - 0x80));
        }
      case None =>
    }
  }

  /** A continuation octet `10xxxxxx` written as an escape is read back. */
  lemma ContinuationStep(o: nat, rest: string, count: nat, acc: nat)
    requires 0x80 <= o < 0xC0 && count > 0
    ensures Continuation(Escape(o) + rest, 0, count, acc) ==
            Continuation(Escape(o) + rest, 3, count - 1, acc * 64 + (o - 0x80))
  {
    EscapeRoundTrip(o, rest);
  }

  lemma DecodeOneOctet(c: char, rest: string)
    requires c as int < 0x80
    ensures DecodeEscape(EscapeAll(Utf8(c as int)) + rest) == Some((c, 3))
  {
    var octets := Utf8(c as int);
    assert EscapeAll(octets) == Escape(octets[0]);
    EscapeRoundTrip(octets[0], rest);
  }

  /** The payload bits of continuation octets folded onto `acc`, most significant first. */
  function Fold(acc: nat, cs: seq<nat>): nat
    requires AllContinuation(cs)
    decreases |cs|
  {
    if cs == [] then acc else Fold(acc * 64 + (cs[0] - 0x80), cs[1..])
  }

  predicate AllContinuation(cs: seq<nat>) {
    forall i :: 0 <= i < |cs| ==> 0x80 <= cs[i] < 0xC0
  }

  lemma AllContinuationTail(cs: seq<nat>)
    requires cs != [] && AllContinuation(cs)
    ensures AllContinuation(cs[1..]) && 0x80 <= cs[0] < 0xC0
  {
    forall i | 0 <= i < |cs[1..]| ensures 0x80 <= cs[1..][i] < 0xC0 {
      assert cs[1..][i] == cs[i + 1];
    }
  }

  /** A continuation octet at the head is consumed and the decoding
      carries on behind it. */
  lemma ContinuationCons(o: nat, tail: string, count: nat, acc: nat)
    requires 0x80 <= o < 0xC0 && count > 0
    ensures Continuation(Escape(o) + tail, 0, count, acc) ==
            Continuation(tail, 0, count - 1, acc * 64 + (o - 0x80))
  {
    ContinuationStep(o, tail, count, acc);
    ContinuationShift(Escape(o), tail, 0, count - 1, acc * 64 + (o - 0x80));
  }

  lemma EscapeAllCons(cs: seq<nat>, rest: string)
    requires cs != [] && AllContinuation(cs)
    ensures EscapeAll(cs) + rest == Escape(cs[0]) + (EscapeAll(cs[1..]) + rest)
  {
    assert EscapeAll(cs) == Escape(cs[0]) + EscapeAll(cs[1..]);
    AppendAssoc(Escape(cs[0]), EscapeAll(cs[1..]), rest);
  }

  lemma AppendAssoc<T>(a: seq<T>, b: seq<T>, c: seq<T>)
    ensures (a + b) + c == a + (b + c)
  {
  }

  lemma {:induction false} ContinuationOfEscapes(cs: seq<nat>, rest: string, acc: nat)
    requires AllContinuation(cs)
    ensures Continuation(EscapeAll(cs) + rest, 0, |cs|, acc) == Some(Fold(acc, cs))
  {
    if cs != [] {
      AllContinuationTail(cs);
      var acc' := acc * 64 + (cs[0] - 0x80);
      var tail := EscapeAll(cs[1..]) + rest;
      EscapeAllCons(cs, rest);
      assert Fold(acc, cs) == Fold(acc', cs[1..]);
      ContinuationCons(cs[0], tail, |cs|, acc);
      ContinuationOfEscapes(cs[1..], rest, acc');
    }
  }


  /** A lead octet of an `n`-octet sequence carrying `payload`, followed by
      its continuation octets, decodes to the code point they spell. */
  lemma DecodeLead(lead: nat, cs: seq<nat>, rest: string, payload: nat, cp: nat)
    requires 0xC0 <= lead < 0xF8 && AllContinuation(cs)
    requires |cs| + 1 == (if lead < 0xE0 then 2 else if lead < 0xF0 then 3 else 4)
    requires payload == (if lead < 0xE0 then lead - 0xC0 else if lead < 0xF0 then lead - 0xE0 else lead - 0xF0)
    requires Fold(payload, cs) == cp && WellFormed(|cs| + 1, cp)
    ensures DecodeEscape(Escape(lead) + EscapeAll(cs) + rest) == Some((cp as char, 3 * (|cs| + 1)))
  {
    var tail := EscapeAll(cs) + rest;
    var s := Escape(lead) + tail;
    AppendAssoc(Escape(lead), EscapeAll(cs), rest);
    assert OctetAt(s, 0) == Some(lead) by {
      EscapeRoundTrip(lead, tail);
    }
    ContinuationsBehindLead(lead, cs, rest, payload);
    assert 3 * (|cs| + 1) <= |s|;
    DecodeLeadAt(s, lead, |cs|, payload, cp);
  }

  lemma ContinuationsBehindLead(lead: nat, cs: seq<nat>, rest: string, payload: nat)
    requires lead < 256 && AllContinuation(cs)
    ensures Continuation(Escape(lead) + (EscapeAll(cs) + rest), 3, |cs|, payload) == Some(Fold(payload, cs))
  {
    ContinuationShift(Escape(lead), EscapeAll(cs) + rest, 0, |cs|, payload);
    ContinuationOfEscapes(cs, rest, payload);
  }

  /** The decoder's view of a multi-octet sequence: a lead octet, then the
      continuation octets it announces. */
  lemma DecodeLeadAt(s: string, lead: nat, count: nat, payload: nat, cp: nat)
    requires |s| > 0 && s[0] == '%' && 0xC0 <= lead < 0xF8
    requires count + 1 == (if lead < 0xE0 then 2 else if lead < 0xF0 then 3 else 4)
    requires payload == (if lead < 0xE0 then lead - 0xC0 else if lead < 0xF0 then lead - 0xE0 else lead - 0xF0)
    requires OctetAt(s, 0) == Some(lead) && Continuation(s, 3, count, payload) == Some(cp)
    requires WellFormed(count + 1, cp) && 3 * (count + 1) <= |s|
    ensures DecodeEscape(s) == Some((cp as char, 3 * (count + 1)))
  {
  }

  /** The UTF-8 octets of a two-octet code point: a lead and its continuation. */
  lemma TwoOctetShape(cp: nat)
    requires 0x80 <= cp < 0x800
    ensures var octets := Utf8(cp);
      |octets| == 2 && 0xC0 <= octets[0] < 0xE0 && AllContinuation(octets[1..]) &&
      Fold(octets[0] - 0xC0, octets[1..]) == cp
  {
    var octets := Utf8(cp);
    assert Fold(cp / 64, octets[1..]) == Fold(cp / 64 * 64 + cp % 64, []);
  }

  lemma ThreeOctetShape(cp: nat)
    requires 0x800 <= cp < 0x1_0000
    ensures var octets := Utf8(cp);
      |octets| == 3 && 0xE0 <= octets[0] < 0xF0 && AllContinuation(octets[1..]) &&
      Fold(octets[0] - 0xE0, octets[1..]) == cp
  {
    var octets := Utf8(cp);
    var cs := octets[1..];
    var a1 := cp / 4096 * 64 + (cp / 64) % 64;
    assert a1 == cp / 64;
    assert Fold(cp / 4096, cs) == Fold(a1, cs[1..]);
    assert Fold(a1, cs[1..]) == Fold(a1 * 64 + cp % 64, []);
  }

  lemma FourOctetArithmetic(cp: nat)
    ensures cp / 262144 * 64 + (cp / 4096) % 64 == cp / 4096
    ensures (cp / 4096) * 64 + (cp / 64) % 64 == cp / 64
    ensures (cp / 64) * 64 + cp % 64 == cp
  {
    assert cp / 262144 == (cp / 4096) / 64;
    assert cp / 4096 == (cp / 64) / 64;
  }

  lemma FourOctetShape(cp: nat)
    requires 0x1_0000 <= cp < 0x11_0000
    ensures var octets := Utf8(cp);
      |octets| == 4 && 0xF0 <= octets[0] < 0xF8 && AllContinuation(octets[1..]) &&
      Fold(octets[0] - 0xF0, octets[1..]) == cp
  {
    var octets := Utf8(cp);
    var cs := octets[1..];
    var a1 := cp / 262144 * 64 + (cp / 4096) % 64;
    var a2 := a1 * 64 + (cp / 64) % 64;
    FourOctetArithmetic(cp);
    assert Fold(cp / 262144, cs) == Fold(a1, cs[1..]);
    assert Fold(a1, cs[1..]) == Fold(a2, cs[2..]);
    assert Fold(a2, cs[2..]) == Fold(a2 * 64 + cp % 64, []);
  }

  /** A character outside ASCII is decoded from the escapes of its UTF-8 octets. */
  lemma DecodeMultiOctet(c: char, rest: string)
    requires 0x80 <= c as int
    ensures DecodeEscape(EscapeAll(Utf8(c as int)) + rest) == Some((c, 3 * |Utf8(c as int)|))
  {
    var cp := c as int;
    var octets := Utf8(cp);
    if cp < 0x800 {
      TwoOctetShape(cp);
    } else if cp < 0x1_0000 {
      ThreeOctetShape(cp);
    } else {
      FourOctetShape(cp);
    }
    assert EscapeAll(octets) == Escape(octets[0]) + EscapeAll(octets[1..]);
    var payload := if cp < 0x800 then octets[0] - 0xC0 else if cp < 0x1_0000 then octets[0] - 0xE0 else octets[0] - 0xF0;
    DecodeLead(octets[0], octets[1..], rest, payload, cp);
  }

  /** Decoding the escapes of a character's UTF-8 octets gives the character back. */
  lemma EncodeCharRoundTrip(c: char, rest: string)
    ensures DecodeComponent(EncodeChar(c) + rest) ==
      match DecodeComponent(rest) case Some(t) => Some([c] + t) case None => None
  {
    var s := EncodeChar(c) + rest;
    if IsUnreserved(c) {
      assert s[0] == c && s[1..] == rest;
    } else {
      var cp := c as int;
      assert s[0] == '%';
      if cp < 0x80 {
        DecodeOneOctet(c, rest);
      } else {
        DecodeMultiOctet(c, rest);
      }
      var len := 3 * |Utf8(cp)|;
      assert DecodeEscape(s) == Some((c, len));
      assert s[len..] == rest;
    }
  }

  /** Round trip: `decodeURIComponent(encodeURIComponent(s)) == s`, so a
      receiving router recovers exactly the value the client substituted. */
  lemma {:induction false} EncodeRoundTrip(s: string)
    ensures DecodeComponent(EncodeComponent(s)) == Some(s)
  {
    if s != [] {
      EncodeRoundTrip(s[1..]);
      EncodeCharRoundTrip(s[0], EncodeComponent(s[1..]));
      assert [s[0]] + s[1..] == s;
    }
  }
  /** The encoder works character by character: encoding a concatenation
      is the concatenation of the encodings. */
  lemma {:induction false} EncodeConcat(a: string, b: string)
    ensures EncodeComponent(a + b) == EncodeComponent(a) + EncodeComponent(b)
    decreases |a|
  {
    if a == [] {
      assert a + b == b;
    } else {
      var t := a + b;
      assert t[0] == a[0] && t[1..] == a[1..] + b;
      EncodeConcat(a[1..], b);
      calc {
        EncodeComponent(t);
        EncodeChar(a[0]) + EncodeComponent(a[1..] + b);
        EncodeChar(a[0]) + (EncodeComponent(a[1..]) + EncodeComponent(b));
        (EncodeChar(a[0]) + EncodeComponent(a[1..])) + EncodeComponent(b);
      }
    }
  }

  /** Text made only of unreserved characters is left as it is. */
  lemma {:induction false} EncodeUnreserved(s: string)
    requires forall i :: 0 <= i < |s| ==> IsUnreserved(s[i])
    ensures EncodeComponent(s) == s
  {
    if s != [] {
      EncodeUnreserved(s[1..]);
    }
  }
  /** A space is escaped as `%20`. */
  lemma SpaceEscaped()
    ensures EncodeComponent(" ") == "%20"
  {
    assert Utf8(' ' as int) == [32];
    assert EscapeAll([32]) == "%20";
  }

  /** Two pieces of text joined by a space encode as their encodings
      joined by `%20`. */
  lemma SpaceJoin(a: string, b: string)
    ensures EncodeComponent(a + " " + b) == EncodeComponent(a) + "%20" + EncodeComponent(b)
  {
    var space := " ";
    SpaceEscaped();
    EncodeConcat(a, space);
    EncodeConcat(a + space, b);
  }
}
