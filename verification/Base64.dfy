/**
 The padded base64 of section 4 of RFC 4648, as the worker decodes it: Go's StdEncoding skips line
 breaks, demands the padding and does not look at the unused low bits of the last digit.
 */
module Base64 {
  import opened GoTypes

  const PAD: byte := 61
  const LF: byte := 10
  const CR: byte := 13

  type Digit = d: nat | d < 64
  datatype Digits = Digits(p: Digit, q: Digit, r: Digit, t: Digit)
  datatype Triple = Triple(x: byte, y: byte, z: byte)

  function CharOf(d: Digit): byte
  {
    if d < 26 then (65 + d) as byte
    else if d < 52 then (97 + d - 26) as byte
    else if d < 62 then (48 + d - 52) as byte
    else if d == 62 then 43 else 47
  }

  function DigitOf(c: byte): Option<Digit>
  {
    if 65 <= c <= 90 then Some(c as nat - 65)
    else if 97 <= c <= 122 then Some(c as nat - 97 + 26)
    else if 48 <= c <= 57 then Some(c as nat - 48 + 52)
    else if c == 43 then Some(62)
    else if c == 47 then Some(63)
    else None
  }

  function Cut(b: Triple): Digits
  {
    var x, y, z := b.x as nat, b.y as nat, b.z as nat;
    Digits(x / 4, x % 4 * 16 + y / 16, y % 16 * 4 + z / 64, z % 64)
  }

  function Join(d: Digits): Triple
  {
    Triple((d.p * 4 + d.q / 16) as byte, (d.q % 16 * 16 + d.r / 4) as byte, (d.r % 4 * 64 + d.t) as byte)
  }

  function Encode(b: seq<byte>): seq<byte>
  {
    if |b| == 0 then []
    else if |b| == 1 then
      var d := Cut(Triple(b[0], 0, 0));
      [CharOf(d.p), CharOf(d.q), PAD, PAD]
    else if |b| == 2 then
      var d := Cut(Triple(b[0], b[1], 0));
      [CharOf(d.p), CharOf(d.q), CharOf(d.r), PAD]
    else
      var d := Cut(Triple(b[0], b[1], b[2]));
      [CharOf(d.p), CharOf(d.q), CharOf(d.r), CharOf(d.t)] + Encode(b[3..])
  }

  function WithoutLineBreaks(s: seq<byte>): (t: seq<byte>)
    ensures LF !in t && CR !in t
    ensures LF !in s && CR !in s ==> t == s
  {
    if s == [] then []
    else (if s[0] == LF || s[0] == CR then [] else [s[0]]) + WithoutLineBreaks(s[1..])
  }

  function DecodeQuanta(s: seq<byte>): Option<seq<byte>>
  {
    if s == [] then Some([])
    else if |s| < 4 then None
    else
      match (DigitOf(s[0]), DigitOf(s[1]), DigitOf(s[2]), DigitOf(s[3]))
      case (Some(p), Some(q), Some(r), Some(t)) =>
        var b := Join(Digits(p, q, r, t));
        (match DecodeQuanta(s[4..])
         case Some(rest) => Some([b.x, b.y, b.z] + rest)
         case None => None)
      case (Some(p), Some(q), Some(r), None) =>
        var b := Join(Digits(p, q, r, 0));
        if |s| == 4 && s[3] == PAD then Some([b.x, b.y]) else None
      case (Some(p), Some(q), None, None) =>
        var b := Join(Digits(p, q, 0, 0));
        if |s| == 4 && s[2] == PAD && s[3] == PAD then Some([b.x]) else None
      case _ => None
  }

  /** base64.StdEncoding.DecodeString; None is its error. */
  function Decode(s: seq<byte>): Option<seq<byte>>
  {
    DecodeQuanta(WithoutLineBreaks(s))
  }

  /**
   Section 4 of RFC 4648: a group has the same 24 bits in bytes and in digits, most significant first, and a
   digit is written by its letter in Table 1.
   */
  lemma FollowsStandard(t: Triple, d: Digit)
    ensures var g := Cut(t);
            t.x as int * 65536 + t.y as int * 256 + t.z as int == g.p * 262144 + g.q * 4096 + g.r * 64 + g.t
    ensures var c := CharOf(d) as int;
            && (d < 26 ==> c == 'A' as int + d)
            && (26 <= d < 52 ==> c == 'a' as int + d - 26)
            && (52 <= d < 62 ==> c == '0' as int + d - 52)
            && (d == 62 ==> c == '+' as int) && (d == 63 ==> c == '/' as int)
  {
  }

  lemma DigitOfCharOf(d: Digit)
    ensures DigitOf(CharOf(d)) == Some(d)
  {
  }

  lemma PadIsNoDigit()
    ensures DigitOf(PAD) == None && DigitOf(LF) == None && DigitOf(CR) == None
  {
  }

  lemma JoinCut(b: Triple)
    ensures Join(Cut(b)) == b
    ensures b.z == 0 ==> Cut(b).t == 0
    ensures b.y == 0 && b.z == 0 ==> Cut(b).r == 0
  {
  }

  lemma {:induction false} DecodeQuantaEncode(b: seq<byte>)
    ensures DecodeQuanta(Encode(b)) == Some(b)
  {
    hide CharOf, DigitOf, Cut, Join;
    PadIsNoDigit();
    if b == [] {
    } else {
      var t := Triple(b[0], if |b| > 1 then b[1] else 0, if |b| > 2 then b[2] else 0);
      JoinCut(t);
      var d := Cut(t);
      DigitOfCharOf(d.p); DigitOfCharOf(d.q); DigitOfCharOf(d.r); DigitOfCharOf(d.t);
      if |b| == 1 {
        assert Encode(b) == [CharOf(d.p), CharOf(d.q), PAD, PAD];
        assert b == [t.x];
      } else if |b| == 2 {
        assert b == [t.x, t.y];
      } else {
        DecodeQuantaEncode(b[3..]);
        assert Encode(b)[4..] == Encode(b[3..]);
        assert b == [t.x, t.y, t.z] + b[3..];
      }
    }
  }

  lemma {:induction false} EncodeUsesAlphabet(b: seq<byte>)
    ensures forall c :: c in Encode(b) ==> c == PAD || DigitOf(c).Some?
  {
    hide CharOf, DigitOf, Cut;
    forall d: Digit ensures DigitOf(CharOf(d)).Some? { DigitOfCharOf(d); }
    if |b| <= 2 {
    } else {
      EncodeUsesAlphabet(b[3..]);
    }
  }

  /** What was encoded comes back, wherever line breaks were put into the encoded text. */
  lemma DecodeEncode(b: seq<byte>, wrapped: seq<byte>)
    requires WithoutLineBreaks(wrapped) == Encode(b)
    ensures Decode(wrapped) == Some(b)
  {
    DecodeQuantaEncode(b);
  }

  /** The plain encoding is one such text. */
  lemma EncodeHasNoLineBreaks(b: seq<byte>)
    ensures WithoutLineBreaks(Encode(b)) == Encode(b)
  {
    EncodeUsesAlphabet(b);
    PadIsNoDigit();
  }

  // ----------------------------------------------------------------- which texts decode, and to what

  /** A letter of the alphabet. */
  predicate InAlphabet(c: byte)
  {
    'A' as int <= c as int <= 'Z' as int || 'a' as int <= c as int <= 'z' as int
    || '0' as int <= c as int <= '9' as int || c as int == '+' as int || c as int == '/' as int
  }

  /** How many padding characters end the text. */
  function Pads(t: seq<byte>): (n: nat)
    ensures n <= 2 && n <= |t|
  {
    if |t| >= 1 && t[|t| - 1] as int == '=' as int
    then if |t| >= 2 && t[|t| - 2] as int == '=' as int then 2 else 1
    else 0
  }

  /** Whole groups of four, letters of the alphabet, and at most two padding characters at the very end. */
  predicate WellFormed(t: seq<byte>)
  {
    && |t| % 4 == 0
    && forall k :: 0 <= k < |t| - Pads(t) ==> InAlphabet(t[k])
  }

  lemma DigitsAreAlphabet(c: byte)
    ensures DigitOf(c).Some? <==> InAlphabet(c)
    ensures DigitOf(c).Some? ==> CharOf(DigitOf(c).value) == c && c != PAD
  {
  }

  lemma QuantumAhead(t: seq<byte>)
    requires |t| > 4
    ensures |t| >= 8 ==> Pads(t) == Pads(t[4..])
    ensures |t| % 4 == 0 ==> (WellFormed(t) <==> WellFormed(t[4..]) && forall k :: 0 <= k < 4 ==> InAlphabet(t[k]))
  {
    var u := t[4..];
    assert forall k :: 0 <= k < |u| ==> u[k] == t[k + 4];
    if |t| % 4 == 0 {
      assert |t| >= 8;
      if WellFormed(u) && (forall k :: 0 <= k < 4 ==> InAlphabet(t[k])) {
        forall k | 0 <= k < |t| - Pads(t) ensures InAlphabet(t[k]) { if k >= 4 { assert u[k - 4] == t[k]; } }
      }
    }
  }

  /** Decoding succeeds exactly for well-formed text, and gives three bytes for four characters less the padding. */
  lemma {:induction false} DecodesWellFormed(t: seq<byte>)
    ensures DecodeQuanta(t).Some? <==> WellFormed(t)
    ensures WellFormed(t) ==> |DecodeQuanta(t).value| == |t| / 4 * 3 - Pads(t)
    decreases |t|
  {
    hide DigitOf, InAlphabet, Join;
    forall c: byte ensures DigitOf(c).Some? <==> InAlphabet(c) { DigitsAreAlphabet(c); }
    PadIsNoDigit();
    if t == [] {
    } else if |t| > 4 {
      DecodesWellFormed(t[4..]);
      QuantumAhead(t);
    }
  }

  /** The letter a decoder cannot tell from c when only the first bits of its digit count. */
  function Canonical(c: byte, unused: nat): byte
    requires InAlphabet(c) && unused > 0
  {
    DigitsAreAlphabet(c);
    var d := DigitOf(c).value;
    CharOf(d - d % unused)
  }

  /** The text an encoder would have written for the same bytes: only the last digit before padding may differ. */
  function Rewritten(t: seq<byte>): (r: seq<byte>)
    requires WellFormed(t)
    ensures |r| == |t|
  {
    if Pads(t) == 2 then t[|t| - 3 := Canonical(t[|t| - 3], 16)]
    else if Pads(t) == 1 then t[|t| - 2 := Canonical(t[|t| - 2], 4)]
    else t
  }

  lemma CutJoin(d: Digits)
    ensures Cut(Join(d)) == d
    ensures Cut(Triple(Join(d).x, 0, 0)) == Digits(d.p, d.q - d.q % 16, 0, 0)
    ensures Cut(Triple(Join(d).x, Join(d).y, 0)) == Digits(d.p, d.q, d.r - d.r % 4, 0)
  {
  }

  lemma OneQuantum(t: seq<byte>)
    requires |t| == 4 && WellFormed(t)
    ensures DecodeQuanta(t).Some? && Encode(DecodeQuanta(t).value) == Rewritten(t)
  {
    hide CharOf, DigitOf, Cut, Join, InAlphabet;
    forall k | 0 <= k < 4 ensures DigitOf(t[k]).Some? <==> InAlphabet(t[k]) { DigitsAreAlphabet(t[k]); }
    forall k | 0 <= k < 4 && InAlphabet(t[k]) ensures CharOf(DigitOf(t[k]).value) == t[k] && t[k] != PAD {
      DigitsAreAlphabet(t[k]);
    }
    PadIsNoDigit();
    var p, q := DigitOf(t[0]).value, DigitOf(t[1]).value;
    var r := if Pads(t) <= 1 then DigitOf(t[2]).value else 0;
    var u := if Pads(t) == 0 then DigitOf(t[3]).value else 0;
    CutJoin(Digits(p, q, r, u));
    assert DecodeQuanta(t[4..]) == Some([]);
  }

  /** Decoding loses nothing else: encoding the bytes again gives the text back, but for bits that never counted. */
  lemma {:induction false} EncodeDecoded(t: seq<byte>)
    requires WellFormed(t)
    ensures DecodeQuanta(t).Some? && Encode(DecodeQuanta(t).value) == Rewritten(t)
    decreases |t|
  {
    hide CharOf, DigitOf, Cut, Join, InAlphabet;
    if t == [] {
    } else if |t| == 4 {
      OneQuantum(t);
    } else {
      QuantumAhead(t);
      EncodeDecoded(t[4..]);
      FirstQuantum(t);
    }
  }

  lemma UpdateAhead(t: seq<byte>, k: nat, c: byte)
    requires 4 <= k < |t|
    ensures t[k := c] == t[..4] + t[4..][k - 4 := c]
  {
  }

  lemma RewrittenAhead(t: seq<byte>)
    requires |t| > 4 && WellFormed(t) && WellFormed(t[4..])
    ensures Rewritten(t) == t[..4] + Rewritten(t[4..])
  {
    QuantumAhead(t);
    var u, n := t[4..], |t|;
    assert n >= 8;
    hide InAlphabet, Canonical, WellFormed, Pads;
    if Pads(t) == 2 {
      assert u[n - 7] == t[n - 3];
      UpdateAhead(t, n - 3, Rewritten(t)[n - 3]);
    } else if Pads(t) == 1 {
      assert u[n - 6] == t[n - 2];
      UpdateAhead(t, n - 2, Rewritten(t)[n - 2]);
    } else {
      assert t == t[..4] + u;
    }
  }

  lemma FirstQuantum(t: seq<byte>)
    requires |t| > 4 && WellFormed(t) && WellFormed(t[4..]) && DecodeQuanta(t[4..]).Some?
    requires Encode(DecodeQuanta(t[4..]).value) == Rewritten(t[4..])
    ensures DecodeQuanta(t).Some? && Encode(DecodeQuanta(t).value) == Rewritten(t)
  {
    QuantumAhead(t);
    RewrittenAhead(t);
    forall k | 0 <= k < 4 ensures DigitOf(t[k]).Some? && CharOf(DigitOf(t[k]).value) == t[k] {
      DigitsAreAlphabet(t[k]);
    }
    hide *;
    FirstFour(t, DecodeQuanta(t[4..]).value);
  }

  lemma FirstFour(t: seq<byte>, rest: seq<byte>)
    requires |t| > 4 && DecodeQuanta(t[4..]) == Some(rest)
    requires forall k :: 0 <= k < 4 ==> DigitOf(t[k]).Some? && CharOf(DigitOf(t[k]).value) == t[k]
    ensures DecodeQuanta(t).Some? && Encode(DecodeQuanta(t).value) == t[..4] + Encode(rest)
  {
    hide CharOf, DigitOf, Cut, Join, InAlphabet;
    var d := Digits(DigitOf(t[0]).value, DigitOf(t[1]).value, DigitOf(t[2]).value, DigitOf(t[3]).value);
    CutJoin(d);
    var b := Join(d);
    assert DecodeQuanta(t) == Some([b.x, b.y, b.z] + rest);
    assert ([b.x, b.y, b.z] + rest)[3..] == rest;
  }

  /** Reading the text, exactly the line feeds and carriage returns are skipped. */
  lemma {:induction false} OnlyLineBreaksGo(s: seq<byte>, u: seq<byte>, c: byte)
    ensures WithoutLineBreaks(s + u) == WithoutLineBreaks(s) + WithoutLineBreaks(u)
    ensures WithoutLineBreaks([c]) == if c == 10 || c == 13 then [] else [c]
  {
    if s == [] {
      assert s + u == u;
    } else {
      assert (s + u)[1..] == s[1..] + u;
      OnlyLineBreaksGo(s[1..], u, c);
    }
  }

  /**
   The decoder, in terms of the text alone: it succeeds iff the text without line breaks is well formed, and
   then with the bytes whose encoding that is, up to unused bits of the last digit.
   */
  lemma DecodesExactly(s: seq<byte>)
    ensures var t := WithoutLineBreaks(s);
            && (Decode(s).Some? <==> WellFormed(t))
            && (WellFormed(t) ==> |Decode(s).value| == |t| / 4 * 3 - Pads(t) && Encode(Decode(s).value) == Rewritten(t))
  {
    var t := WithoutLineBreaks(s);
    DecodesWellFormed(t);
    if WellFormed(t) { EncodeDecoded(t); }
  }
}
