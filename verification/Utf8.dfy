/**
 * internal/fileextract/tika.go: cutting extracted text to a byte limit without
 * splitting a character. Well-formed text is that of section 4 of RFC 3629.
 */
module Utf8 {
  import opened Common

  predicate Tail(b: byte) {
    0x80 <= b <= 0xBF
  }

  /** utf8.RuneStart: any byte that does not continue a character. */
  predicate RuneStart(b: byte) {
    !Tail(b)
  }

  /** Length of the well-formed character at the front, or 0 when there is none. */
  function CharLen(s: Bytes): (n: nat)
    ensures n <= |s| && n <= 4
    ensures n > 0 ==> RuneStart(s[0]) && forall k :: 1 <= k < n ==> Tail(s[k])
  {
    if s == [] then 0
    else if s[0] <= 0x7F then 1
    else if 0xC2 <= s[0] <= 0xDF && |s| >= 2 && Tail(s[1]) then 2
    else if 0xE0 <= s[0] <= 0xEF && |s| >= 3 && Tail(s[1]) && Tail(s[2])
            && (s[0] == 0xE0 ==> s[1] >= 0xA0) && (s[0] == 0xED ==> s[1] <= 0x9F) then 3
    else if 0xF0 <= s[0] <= 0xF4 && |s| >= 4 && Tail(s[1]) && Tail(s[2]) && Tail(s[3])
            && (s[0] == 0xF0 ==> s[1] >= 0x90) && (s[0] == 0xF4 ==> s[1] <= 0x8F) then 4
    else 0
  }

  predicate WellFormed(s: Bytes) {
    s == [] || (CharLen(s) > 0 && WellFormed(s[CharLen(s)..]))
  }

  // ---- well-formed text is encoded characters ----

  /** The Unicode scalar values. */
  predicate Scalar(c: nat) {
    c <= 0x10FFFF && !(0xD800 <= c <= 0xDFFF)
  }

  function Encode(c: nat): Bytes
    requires Scalar(c)
  {
    if c < 0x80 then [c as byte]
    else if c < 0x800 then [(0xC0 + c / 64) as byte, (0x80 + c % 64) as byte]
    else if c < 0x10000 then [(0xE0 + c / 4096) as byte, (0x80 + c / 64 % 64) as byte, (0x80 + c % 64) as byte]
    else [(0xF0 + c / 262144) as byte, (0x80 + c / 4096 % 64) as byte, (0x80 + c / 64 % 64) as byte,
          (0x80 + c % 64) as byte]
  }

  /** The character at the front of a text. */
  function Decoded(s: Bytes): nat
    requires CharLen(s) > 0
  {
    match CharLen(s)
    case 1 => s[0] as nat
    case 2 => (s[0] as nat - 0xC0) * 64 + (s[1] as nat - 0x80)
    case 3 => (s[0] as nat - 0xE0) * 4096 + (s[1] as nat - 0x80) * 64 + (s[2] as nat - 0x80)
    case _ =>
      (s[0] as nat - 0xF0) * 262144 + (s[1] as nat - 0x80) * 4096 + (s[2] as nat - 0x80) * 64 + (s[3] as nat - 0x80)
  }

  /** Six bits at a time. */
  lemma Split(c: nat)
    ensures c == 64 * (c / 64) + c % 64 && c / 64 == 64 * (c / 4096) + c / 64 % 64
    ensures c / 4096 == 64 * (c / 262144) + c / 4096 % 64
  {
  }

  lemma Join(a: nat, b: nat, d: nat, e: nat)
    requires b < 64 && d < 64 && e < 64
    ensures var c := a * 262144 + b * 4096 + d * 64 + e;
            c % 64 == e && c / 64 % 64 == d && c / 4096 % 64 == b && c / 262144 == a
  {
    var c := a * 262144 + b * 4096 + d * 64 + e;
    assert c / 64 == a * 4096 + b * 64 + d;
    assert c / 4096 == a * 64 + b;
  }

  /** An encoded character is recognised, whatever follows it... */
  lemma EncodedIsChar(c: nat, rest: Bytes)
    requires Scalar(c)
    ensures CharLen(Encode(c) + rest) == |Encode(c)| && Decoded(Encode(c) + rest) == c
  {
    Split(c);
    var e := Encode(c);
    var s := e + rest;
    if c < 0x80 {
      assert s[0] == e[0];
    } else if c < 0x800 {
      assert s[0] == e[0] && s[1] == e[1];
    } else if c < 0x10000 {
      assert s[0] == e[0] && s[1] == e[1] && s[2] == e[2];
    } else {
      assert s[0] == e[0] && s[1] == e[1] && s[2] == e[2] && s[3] == e[3];
    }
  }

  /** ...and nothing else is. */
  lemma CharIsEncoded(s: Bytes)
    requires CharLen(s) > 0
    ensures Scalar(Decoded(s)) && s[..CharLen(s)] == Encode(Decoded(s))
  {
    match CharLen(s) {
      case 1 => 
      case 2 => Join(0, 0, s[0] as nat - 0xC0, s[1] as nat - 0x80);
      case 3 => Join(0, s[0] as nat - 0xE0, s[1] as nat - 0x80, s[2] as nat - 0x80);
      case _ => Join(s[0] as nat - 0xF0, s[1] as nat - 0x80, s[2] as nat - 0x80, s[3] as nat - 0x80);
    }
  }

  function EncodeAll(cs: seq<nat>): Bytes
    requires forall k :: 0 <= k < |cs| ==> Scalar(cs[k])
  {
    if cs == [] then [] else Encode(cs[0]) + EncodeAll(cs[1..])
  }

  /** Well-formed texts are exactly the encodings of characters. */
  lemma {:induction false} TextIsEncoded(s: Bytes) returns (cs: seq<nat>)
    requires WellFormed(s)
    ensures (forall k :: 0 <= k < |cs| ==> Scalar(cs[k])) && s == EncodeAll(cs)
  {
    cs := [];
    if s != [] {
      var n := CharLen(s);
      CharIsEncoded(s);
      var rest := TextIsEncoded(s[n..]);
      cs := [Decoded(s)] + rest;
      assert cs[1..] == rest && s == s[..n] + s[n..];
    }
  }

  lemma {:induction false} EncodedIsText(cs: seq<nat>)
    requires forall k :: 0 <= k < |cs| ==> Scalar(cs[k])
    ensures WellFormed(EncodeAll(cs))
  {
    if cs != [] {
      EncodedIsChar(cs[0], EncodeAll(cs[1..]));
      EncodedIsText(cs[1..]);
      assert EncodeAll(cs)[|Encode(cs[0])|..] == EncodeAll(cs[1..]);
    }
  }

  /** truncateContent's cut: back from the limit to where a character may start. */
  function CutBack(s: Bytes, end: nat): (cut: nat)
    requires end < |s|
    ensures cut <= end && (cut == 0 || RuneStart(s[cut]))
    ensures forall e :: cut < e <= end ==> !RuneStart(s[e])
  {
    if end == 0 || RuneStart(s[end]) then end else CutBack(s, end - 1)
  }

  datatype Truncated = Truncated(content: Bytes, cut: bool)

  function Truncation(s: Bytes, maxBytes: nat): Truncated {
    if |s| <= maxBytes then Truncated(s, false) else Truncated(s[..CutBack(s, maxBytes)], true)
  }

  /** truncateContent. */
  method TruncateContent(s: Bytes, maxBytes: nat) returns (r: Truncated)
    ensures r == Truncation(s, maxBytes)
    ensures r.content <= s && |r.content| <= maxBytes && (r.cut <==> |s| > maxBytes)
  {
    if |s| <= maxBytes {
      return Truncated(s, false);
    }
    var end := maxBytes;
    while end > 0 && !RuneStart(s[end])
      invariant 0 <= end <= maxBytes && CutBack(s, end) == CutBack(s, maxBytes)
    {
      end := end - 1;
    }
    return Truncated(s[..end], true);
  }

  /** Extract reads only four bytes more than the limit, and that changes nothing. */
  method ReadAndTruncate(body: Bytes, maxBytes: nat) returns (r: Truncated)
    ensures r == Truncation(body, maxBytes)
  {
    r := TruncateContent(Take(body, maxBytes + 4), maxBytes);
    HeadIsEnough(body, maxBytes);
  }

  lemma HeadIsEnough(s: Bytes, maxBytes: nat)
    ensures Truncation(Take(s, maxBytes + 4), maxBytes) == Truncation(s, maxBytes)
  {
  }

  // ---- well-formed text stays well-formed ----

  /** The character at the front depends on its own bytes only. */
  lemma CharOfPrefix(s: Bytes, p: nat)
    requires p <= |s| && 0 < CharLen(s)
    ensures CharLen(s) <= p ==> CharLen(s[..p]) == CharLen(s)
    ensures p < CharLen(s) ==> CharLen(s[..p]) == 0
  {
  }

  /**
   * In well-formed text a prefix is well-formed exactly when it is everything or what
   * follows starts a character.
   */
  lemma {:induction false} BoundaryIsStart(s: Bytes, p: nat)
    requires WellFormed(s) && p <= |s|
    ensures WellFormed(s[..p]) <==> p == 0 || p == |s| || RuneStart(s[p])
  {
    if p == 0 {
      assert s[..0] == [];
    } else {
      var n := CharLen(s);
      CharOfPrefix(s, p);
      if n <= p {
        BoundaryIsStart(s[n..], p - n);
        assert s[..p][n..] == s[n..][..p - n];
        assert p < |s| ==> s[n..][p - n] == s[p];
        assert p == n && p < |s| ==> RuneStart(s[n..][0]);
      }
    }
  }

  /** No more than three bytes in a row continue a character. */
  lemma {:induction false} StartNearby(s: Bytes, p: nat) returns (q: nat)
    requires WellFormed(s) && p < |s|
    ensures p - 3 <= q <= p && RuneStart(s[q])
  {
    var n := CharLen(s);
    if p < n {
      q := 0;
    } else {
      q := StartNearby(s[n..], p - n);
      assert s[n..][q] == s[q + n];
      q := q + n;
    }
  }

  /**
   * Well-formed text is cut to the longest well-formed prefix within the limit, at
   * most three bytes short of it.
   */
  lemma TruncationOfText(s: Bytes, maxBytes: nat)
    requires WellFormed(s)
    ensures var r := Truncation(s, maxBytes);
            && WellFormed(r.content)
            && (forall p :: |r.content| < p <= maxBytes && p <= |s| ==> !WellFormed(s[..p]))
            && (r.cut ==> maxBytes - |r.content| <= 3)
  {
    if |s| > maxBytes {
      var cut := CutBack(s, maxBytes);
      BoundaryIsStart(s, cut);
      forall p | cut < p <= maxBytes ensures !WellFormed(s[..p]) {
        BoundaryIsStart(s, p);
      }
      var q := StartNearby(s, maxBytes);
    }
  }
}
