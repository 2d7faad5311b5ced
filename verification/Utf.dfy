/** Transcoding text: the encoder of null-terminated UTF-16, the decoder back to bytes, and the cutting
    of text into code points. Masks and shifts are written as division and remainder. */
module Utf {
  import opened ArcTypes

  type Unit = x: int | 0 <= x < 0x1_0000

  datatype Fault = EmbeddedNul | BadLead | Truncated | BadContinuation | SurrogatePoint | OutOfRange
  datatype Decoded<+T> = Good(value: T) | Bad(fault: Fault)

  predicate Scalar(c: nat) {
    c < 0xD800 || 0xDFFF < c <= 0x10FFFF
  }

  predicate Scalars(cs: seq<nat>) {
    forall i: nat | i < |cs| :: Scalar(cs[i])
  }

  predicate Text(cs: seq<nat>) {
    Scalars(cs) && forall i: nat | i < |cs| :: cs[i] != 0
  }

  // ---- Reference forms ----------------------------------------------------------------------------------

  /** The shortest UTF-8 form (RFC 3629, section 3). */
  function Utf8(c: nat): (r: seq<byte>)
    requires Scalar(c)
    ensures 1 <= |r| <= 4
  {
    if c < 0x80 then [c]
    else if c < 0x800 then [0xC0 + c / 64, 0x80 + c % 64]
    else if c < 0x1_0000 then [0xE0 + c / 4096, 0x80 + c / 64 % 64, 0x80 + c % 64]
    else [0xF0 + c / 262144, 0x80 + c / 4096 % 64, 0x80 + c / 64 % 64, 0x80 + c % 64]
  }

  function Utf8All(cs: seq<nat>): seq<byte>
    requires Scalars(cs)
  {
    if cs == [] then [] else Utf8(cs[0]) + Utf8All(cs[1..])
  }

  /** The units of one scalar value, a surrogate pair above the basic plane. */
  function Units(c: nat): (r: seq<Unit>)
    requires Scalar(c)
    ensures 1 <= |r| <= 2
  {
    if c <= 0xFFFF then [c]
    else [0xD800 + (c - 0x1_0000) / 1024, 0xDC00 + (c - 0x1_0000) % 1024]
  }

  function UnitsAll(cs: seq<nat>): seq<Unit>
    requires Scalars(cs)
  {
    if cs == [] then [] else Units(cs[0]) + UnitsAll(cs[1..])
  }

  /** Decoding UTF-16 (RFC 2781, section 2.2); None for an unpaired surrogate. */
  function FromUtf16(units: seq<Unit>): Option<seq<nat>> {
    if units == [] then Some([])
    else if units[0] < 0xD800 || units[0] > 0xDFFF then
      var rest := FromUtf16(units[1..]);
      if rest.None? then None else Some([units[0] as nat] + rest.value)
    else if units[0] > 0xDBFF || |units| < 2 || units[1] < 0xDC00 || units[1] > 0xDFFF then None
    else
      var rest := FromUtf16(units[2..]);
      if rest.None? then None
      else Some([0x1_0000 + (units[0] as int - 0xD800) * 1024 + (units[1] as int - 0xDC00)] + rest.value)
  }

  // ---- The encoder ------------------------------------------------------------------------------------------

  datatype Lead = Lead(bits: nat, extra: nat)

  /** What a lead byte says: its payload and how many bytes follow. */
  function ReadLead(lead: byte): Decoded<Lead> {
    if lead == 0 then Bad(EmbeddedNul)
    else if lead < 0x80 then Good(Lead(lead, 0))
    else if lead / 32 == 6 then Good(Lead(lead % 32, 1))
    else if lead / 16 == 14 then Good(Lead(lead % 16, 2))
    else if lead / 8 == 30 then Good(Lead(lead % 8, 3))
    else Bad(BadLead)
  }

  /** Folding in the continuation bytes from `k` to `extra`. */
  function Fold(t: seq<byte>, k: nat, extra: nat, bits: nat): Decoded<nat>
    requires extra < |t| && 1 <= k <= extra + 1
    decreases extra + 1 - k
  {
    if k == extra + 1 then Good(bits)
    else if t[k] / 64 != 2 then Bad(BadContinuation)
    else Fold(t, k + 1, extra, bits * 64 + t[k] % 64)
  }

  datatype Point = Point(code: nat, width: nat)

  /** The code point at the start of a text, and the bytes it takes. */
  function DecodeOne(t: seq<byte>): (r: Decoded<Point>)
    requires |t| > 0
    ensures r.Good? ==> Scalar(r.value.code) && 1 <= r.value.width <= |t| && r.value.width <= 4
  {
    match ReadLead(t[0])
    case Bad(fault) => Bad(fault)
    case Good(lead) =>
      if lead.extra >= |t| then Bad(Truncated)
      else
        match Fold(t, 1, lead.extra, lead.bits)
        case Bad(fault) => Bad(fault)
        case Good(code) =>
          if 0xD800 <= code <= 0xDFFF then Bad(SurrogatePoint)
          else if code > 0x10FFFF then Bad(OutOfRange)
          else Good(Point(code, lead.extra + 1))
  }

  /** The code points of a text, or the first fault. */
  function Points(t: seq<byte>): (r: Decoded<seq<nat>>)
    ensures r.Good? ==> Scalars(r.value)
    decreases |t|
  {
    if t == [] then Good([])
    else
      match DecodeOne(t)
      case Bad(fault) => Bad(fault)
      case Good(p) =>
        match Points(t[p.width..])
        case Bad(fault) => Bad(fault)
        case Good(rest) => Good([p.code] + rest)
  }

  function Encoded(t: seq<byte>): Decoded<seq<Unit>> {
    match Points(t)
    case Bad(fault) => Bad(fault)
    case Good(cs) => Good(UnitsAll(cs) + [0])
  }

  function Prepended(cs: seq<nat>, r: Decoded<seq<nat>>): Decoded<seq<nat>> {
    match r
    case Bad(fault) => Bad(fault)
    case Good(rest) => Good(cs + rest)
  }

  lemma NothingBefore(r: Decoded<seq<nat>>)
    ensures Prepended([], r) == r
  {
    if r.Good? { assert [] + r.value == r.value; }
  }

  lemma PointsFail(cs: seq<nat>, t: seq<byte>)
    requires |t| > 0 && DecodeOne(t).Bad?
    ensures Prepended(cs, Points(t)) == Bad(DecodeOne(t).fault)
  {
  }

  lemma PointsEnd(cs: seq<nat>)
    ensures Prepended(cs, Points([])) == Good(cs)
  {
    assert cs + [] == cs;
  }

  /** One more code point read. */
  lemma PointsStep(cs: seq<nat>, t: seq<byte>)
    requires |t| > 0 && DecodeOne(t).Good?
    ensures (var p := DecodeOne(t).value;
             Prepended(cs, Points(t)) == Prepended(cs + [p.code], Points(t[p.width..])))
  {
    var p := DecodeOne(t).value;
    var rest := Points(t[p.width..]);
    if rest.Good? {
      assert cs + ([p.code] + rest.value) == cs + [p.code] + rest.value;
    }
  }

  /** The bytes of one code point, read by the loop over its continuation bytes. */
  method ReadPoint(text: seq<byte>, i: nat) returns (r: Decoded<Point>)
    requires i < |text|
    ensures r == DecodeOne(text[i..])
  {
    ghost var t := text[i..];
    var lead := ReadLead(text[i]);
    if lead.Bad? {
      return Bad(lead.fault);
    }
    var code: nat, extra: nat := lead.value.bits, lead.value.extra;
    if i + extra >= |text| {
      return Bad(Truncated);
    }
    var k := 1;
    while k <= extra
      invariant 1 <= k <= extra + 1
      invariant Fold(t, 1, extra, lead.value.bits) == Fold(t, k, extra, code)
    {
      var continuation := text[i + k];
      if continuation / 64 != 2 {
        return Bad(BadContinuation);
      }
      code := code * 64 + continuation % 64;
      k := k + 1;
    }
    if 0xD800 <= code <= 0xDFFF {
      return Bad(SurrogatePoint);
    }
    if code > 0x10FFFF {
      return Bad(OutOfRange);
    }
    r := Good(Point(code, extra + 1));
  }

  method PushUnits(units: seq<Unit>, code: nat) returns (more: seq<Unit>)
    requires Scalar(code)
    ensures more == units + Units(code)
  {
    if code <= 0xFFFF {
      more := units + [code];
    } else {
      var adjusted := code - 0x1_0000;
      more := units + [0xD800 + adjusted / 1024];
      more := more + [0xDC00 + adjusted % 1024];
    }
  }

  /** One pass over the text, appending units. */
  method EncodeUtf16(text: seq<byte>) returns (r: Decoded<seq<Unit>>)
    ensures r == Encoded(text)
  {
    hide *;
    var units: seq<Unit> := [];
    ghost var seen: seq<nat> := [];
    var i := 0;
    assert text[0..] == text;
    NothingBefore(Points(text));
    NoUnits();
    while i < |text|
      invariant i <= |text| && Scalars(seen) && units == UnitsAll(seen)
      invariant Points(text) == Prepended(seen, Points(text[i..]))
      decreases |text| - i
    {
      var p := ReadPoint(text, i);
      if p.Bad? {
        PointsFail(seen, text[i..]);
        EncodedBad(text, p.fault);
        return Bad(p.fault);
      }
      var code := p.value.code;
      PointsStep(seen, text[i..]);
      assert text[i..][p.value.width..] == text[i + p.value.width..];
      i := i + p.value.width;
      UnitsAppend(seen, code);
      units := PushUnits(units, code);
      seen := seen + [code];
    }
    assert text[i..] == [];
    PointsEnd(seen);
    EncodedGood(text, seen);
    r := Good(units + [0]);
  }

  lemma NoUnits()
    ensures Scalars([]) && UnitsAll([]) == []
  {
  }

  lemma EncodedBad(text: seq<byte>, fault: Fault)
    requires Points(text) == Bad(fault)
    ensures Encoded(text) == Bad(fault)
  {
  }

  lemma EncodedGood(text: seq<byte>, cs: seq<nat>)
    requires Points(text) == Good(cs)
    ensures Scalars(cs) && Encoded(text) == Good(UnitsAll(cs) + [0])
  {
  }

  lemma {:induction false} UnitsAppend(cs: seq<nat>, c: nat)
    requires Scalar(c) && Scalars(cs)
    ensures Scalars(cs + [c])
    ensures UnitsAll(cs + [c]) == UnitsAll(cs) + Units(c)
  {
    if cs == [] {
      assert cs + [c] == [c];
    } else {
      UnitsAppend(cs[1..], c);
      assert (cs + [c])[1..] == cs[1..] + [c];
    }
  }

  // ---- Round trips ------------------------------------------------------------------------------------------

  /** The six payload bits of a continuation byte. */
  function Low(b: byte): (r: nat)
    ensures r < 64 && r == b as int % 64
  {
    b as int % 64
  }

  lemma FoldOne(t: seq<byte>, bits: nat)
    requires |t| > 1 && t[1] / 64 == 2
    ensures Fold(t, 1, 1, bits) == Good(bits * 64 + Low(t[1]))
  {
  }

  lemma FoldTwo(t: seq<byte>, bits: nat)
    requires |t| > 2 && t[1] / 64 == 2 && t[2] / 64 == 2
    ensures Fold(t, 1, 2, bits) == Good((bits * 64 + Low(t[1])) * 64 + Low(t[2]))
  {
    assert Fold(t, 1, 2, bits) == Fold(t, 2, 2, bits * 64 + Low(t[1]));
  }

  lemma FoldThree(t: seq<byte>, bits: nat)
    requires |t| > 3 && t[1] / 64 == 2 && t[2] / 64 == 2 && t[3] / 64 == 2
    ensures Fold(t, 1, 3, bits) == Good(((bits * 64 + Low(t[1])) * 64 + Low(t[2])) * 64 + Low(t[3]))
  {
    var one := bits * 64 + Low(t[1]);
    assert Fold(t, 1, 3, bits) == Fold(t, 2, 3, one);
    assert Fold(t, 2, 3, one) == Fold(t, 3, 3, one * 64 + Low(t[2]));
  }

  lemma FoldGood(t: seq<byte>, extra: nat, bits: nat)
    requires 1 <= extra <= 3 && extra < |t| && Fold(t, 1, extra, bits).Good?
    ensures t[1] / 64 == 2 && (extra > 1 ==> t[2] / 64 == 2) && (extra > 2 ==> t[3] / 64 == 2)
  {
    var one := bits * 64 + Low(t[1]);
    assert Fold(t, 1, extra, bits) == if t[1] / 64 == 2 then Fold(t, 2, extra, one) else Bad(BadContinuation);
    if extra > 1 {
      var two := one * 64 + Low(t[2]);
      assert Fold(t, 2, extra, one) == if t[2] / 64 == 2 then Fold(t, 3, extra, two) else Bad(BadContinuation);
    }
  }

  /** A continuation byte. */
  predicate Continues(b: byte) {
    0x80 <= b < 0xC0
  }

  lemma FoldStops(t: seq<byte>, extra: nat, bits: nat)
    requires 1 <= extra <= 3 && extra < |t|
    ensures Fold(t, 1, extra, bits).Bad? ==> Fold(t, 1, extra, bits) == Bad(BadContinuation)
    ensures Fold(t, 1, extra, bits).Good? <==> forall k | 1 <= k <= extra :: Continues(t[k])
  {
    var one := bits * 64 + Low(t[1]);
    assert Fold(t, 1, extra, bits) == if t[1] / 64 == 2 then Fold(t, 2, extra, one) else Bad(BadContinuation);
    if extra > 1 {
      var two := one * 64 + Low(t[2]);
      assert Fold(t, 2, extra, one) == if t[2] / 64 == 2 then Fold(t, 3, extra, two) else Bad(BadContinuation);
    }
  }

  /** The payload of a form of `width` bytes. */
  function Payload(t: seq<byte>, width: nat): (c: nat)
    requires 1 <= width <= 4 && width <= |t|
  {
    match width
    case 1 => t[0] as nat
    case 2 => t[0] as nat % 0x20 * 0x40 + Low(t[1])
    case 3 => t[0] as nat % 0x10 * 0x1000 + Low(t[1]) * 0x40 + Low(t[2])
    case _ => t[0] as nat % 0x8 * 0x4_0000 + Low(t[1]) * 0x1000 + Low(t[2]) * 0x40 + Low(t[3])
  }

  /** What the encoder makes of the bytes at the start of a text: the code point of a form of up to four
      bytes, overlong or not, or the first fault. */
  lemma DecodeOneIs(t: seq<byte>)
    requires |t| > 0
    ensures t[0] == 0 ==> DecodeOne(t) == Bad(EmbeddedNul)
    ensures Continues(t[0]) || t[0] >= 0xF8 ==> DecodeOne(t) == Bad(BadLead)
    ensures 0 < t[0] < 0xF8 && !Continues(t[0]) ==>
      var w := if t[0] < 0x80 then 1 else if t[0] < 0xE0 then 2 else if t[0] < 0xF0 then 3 else 4;
      if w > |t| then DecodeOne(t) == Bad(Truncated)
      else if exists k :: 1 <= k < w && !Continues(t[k]) then DecodeOne(t) == Bad(BadContinuation)
      else
        DecodeOne(t) == if 0xD800 <= Payload(t, w) <= 0xDFFF then Bad(SurrogatePoint)
                        else if Payload(t, w) > 0x10FFFF then Bad(OutOfRange)
                        else Good(Point(Payload(t, w), w))
  {
    hide Fold;
    var r := ReadLead(t[0]);
    if r.Good? {
      var lead := r.value;
      if lead.extra == 0 {
        NoneToFold(t, lead.bits);
      } else if lead.extra < |t| {
        FoldStops(t, lead.extra, lead.bits);
        if Fold(t, 1, lead.extra, lead.bits).Good? {
          Folded(t, lead.extra, lead.bits);
        }
      }
    }
  }

  lemma NoneToFold(t: seq<byte>, bits: nat)
    requires |t| > 0
    ensures Fold(t, 1, 0, bits) == Good(bits)
  {
  }

  lemma Folded(t: seq<byte>, extra: nat, bits: nat)
    requires 1 <= extra <= 3 && extra < |t| && Fold(t, 1, extra, bits).Good?
    ensures extra == 1 ==> Fold(t, 1, extra, bits) == Good(bits * 0x40 + Low(t[1]))
    ensures extra == 2 ==> Fold(t, 1, extra, bits) == Good(bits * 0x1000 + Low(t[1]) * 0x40 + Low(t[2]))
    ensures extra == 3 ==>
      Fold(t, 1, extra, bits) == Good(bits * 0x4_0000 + Low(t[1]) * 0x1000 + Low(t[2]) * 0x40 + Low(t[3]))
  {
    FoldGood(t, extra, bits);
    if extra == 1 {
      FoldOne(t, bits);
    } else if extra == 2 {
      FoldTwo(t, bits);
    } else {
      FoldThree(t, bits);
    }
  }

  lemma Shifts(c: nat)
    ensures c / 4096 == c / 64 / 64
    ensures c / 262144 == c / 4096 / 64
  {
  }

  lemma Digit(c: nat, high: nat, low: nat)
    requires low < 64
    ensures c == high * 64 + low <==> c / 64 == high && c % 64 == low
  {
  }

  lemma Base64(c: nat)
    ensures c == c / 64 * 64 + c % 64
    ensures c / 64 == c / 4096 * 64 + c / 64 % 64
    ensures c / 4096 == c / 262144 * 64 + c / 4096 % 64
  {
    Shifts(c);
  }

  lemma DecodeFour(c: nat, t: seq<byte>)
    requires 0x1_0000 <= c <= 0x10FFFF && |t| > 3 && t[0] == 0xF0 + c / 262144 && t[1] == 0x80 + c / 4096 % 64
    requires t[2] == 0x80 + c / 64 % 64 && t[3] == 0x80 + c % 64
    ensures DecodeOne(t) == Good(Point(c, 4))
  {
    hide Fold;
    Base64(c);
    FoldThree(t, c / 262144);
    assert Low(t[1]) == c / 4096 % 64 && Low(t[2]) == c / 64 % 64 && Low(t[3]) == c % 64;
  }

  lemma DecodeThree(c: nat, t: seq<byte>)
    requires Scalar(c) && 0x800 <= c < 0x1_0000 && |t| > 2
    requires t[0] == 0xE0 + c / 4096 && t[1] == 0x80 + c / 64 % 64 && t[2] == 0x80 + c % 64
    ensures DecodeOne(t) == Good(Point(c, 3))
  {
    hide Fold;
    Base64(c);
    FoldTwo(t, c / 4096);
    assert Low(t[1]) == c / 64 % 64 && Low(t[2]) == c % 64;
  }

  /** A shortest form at the start of a text is read back, whatever follows it. */
  lemma DecodeShortest(c: nat, rest: seq<byte>)
    requires Scalar(c) && c != 0
    ensures DecodeOne(Utf8(c) + rest) == Good(Point(c, |Utf8(c)|))
  {
    var t := Utf8(c) + rest;
    if c < 0x80 {
      assert t[0] == c;
    } else if c < 0x800 {
      hide Fold;
      Base64(c);
      FoldOne(t, c / 64);
      assert Low(t[1]) == c % 64;
    } else if c < 0x1_0000 {
      hide DecodeOne;
      DecodeThree(c, t);
    } else {
      hide DecodeOne;
      DecodeFour(c, t);
    }
  }

  lemma {:induction false} PointsOfUtf8(cs: seq<nat>)
    requires Text(cs)
    ensures Points(Utf8All(cs)) == Good(cs)
  {
    if cs != [] {
      var rest := Utf8All(cs[1..]);
      DecodeShortest(cs[0], rest);
      PointsOfUtf8(cs[1..]);
      assert (Utf8(cs[0]) + rest)[|Utf8(cs[0])|..] == rest;
      assert cs == [cs[0]] + cs[1..];
    }
  }

  lemma {:induction false} UnitsDecode(cs: seq<nat>)
    requires Scalars(cs)
    ensures FromUtf16(UnitsAll(cs)) == Some(cs)
    ensures 0 in UnitsAll(cs) <==> 0 in cs
  {
    if cs != [] {
      UnitsDecode(cs[1..]);
      var us := UnitsAll(cs);
      assert us[|Units(cs[0])|..] == UnitsAll(cs[1..]);
      assert cs == [cs[0]] + cs[1..];
    }
  }

  /** Units decode to scalar values exactly when they are the units of those values. */
  lemma {:induction false} DecodeIff(units: seq<Unit>, cs: seq<nat>)
    ensures FromUtf16(units) == Some(cs) <==> Scalars(cs) && UnitsAll(cs) == units
  {
    if FromUtf16(units) == Some(cs) {
      if units != [] {
        var n := if units[0] < 0xD800 || units[0] > 0xDFFF then 1 else 2;
        DecodeIff(units[n..], cs[1..]);
        assert units == Units(cs[0]) + units[n..];
      }
    } else if Scalars(cs) && UnitsAll(cs) == units {
      UnitsDecode(cs);
      assert false;
    }
  }

  /** Text without NUL in its shortest form encodes, only the terminator is zero, and decoding the
      units gives the text. */
  lemma Utf16RoundTrip(cs: seq<nat>)
    requires Text(cs)
    ensures Encoded(Utf8All(cs)) == Good(UnitsAll(cs) + [0])
    ensures 0 !in UnitsAll(cs)
    ensures FromUtf16(UnitsAll(cs)) == Some(cs)
  {
    PointsOfUtf8(cs);
    UnitsDecode(cs);
  }

  // ---- What the encoder accepts beyond shortest forms ------------------------------------------------------------

  /** A form longer than needed shows in its first two bytes. */
  predicate OverlongAt(t: seq<byte>)
    requires |t| > 0
  {
    || t[0] == 0xC0 || t[0] == 0xC1
    || (|t| > 1 && t[0] == 0xE0 && t[1] < 0xA0)
    || (|t| > 1 && t[0] == 0xF0 && t[1] < 0x90)
  }

  /** No overlong form where the encoder starts a code point. */
  predicate Shortest(t: seq<byte>)
    decreases |t|
  {
    t == [] || (
      && !OverlongAt(t)
      && (var p := DecodeOne(t);
          p.Good? ==> Shortest(t[p.value.width..])))
  }

  lemma ShortestTwo(t: seq<byte>)
    requires |t| > 1 && 0xC0 <= t[0] < 0xE0 && DecodeOne(t).Good?
    ensures (var p := DecodeOne(t).value;
             && p.width == 2 && p.code == (t[0] as int % 32) * 64 + Low(t[1])
             && t[..2] == [0xC0 + p.code / 64, 0x80 + p.code % 64])
  {
    hide Fold;
    var bits := t[0] as int % 32;
    FoldGood(t, 1, bits);
    FoldOne(t, bits);
    Digit(bits * 64 + Low(t[1]), bits, Low(t[1]));
  }

  lemma ShortestThree(t: seq<byte>)
    requires |t| > 2 && 0xE0 <= t[0] < 0xF0 && DecodeOne(t).Good?
    ensures (var p := DecodeOne(t).value;
             && p.width == 3 && p.code == ((t[0] as int % 16) * 64 + Low(t[1])) * 64 + Low(t[2])
             && t[1] == 0x80 + Low(t[1])
             && t[..3] == [0xE0 + p.code / 4096, 0x80 + p.code / 64 % 64, 0x80 + p.code % 64])
  {
    hide Fold;
    var bits := t[0] as int % 16;
    FoldGood(t, 2, bits);
    FoldTwo(t, bits);
    var two := bits * 64 + Low(t[1]);
    var code := two * 64 + Low(t[2]);
    Digit(code, two, Low(t[2]));
    Digit(two, bits, Low(t[1]));
    Shifts(code);
  }

  lemma ShortestFour(t: seq<byte>)
    requires |t| > 3 && 0xF0 <= t[0] < 0xF8 && DecodeOne(t).Good?
    ensures (var p := DecodeOne(t).value;
             && p.width == 4 && p.code == (((t[0] as int % 8) * 64 + Low(t[1])) * 64 + Low(t[2])) * 64 + Low(t[3])
             && t[1] == 0x80 + Low(t[1])
             && t[..4] == [0xF0 + p.code / 262144, 0x80 + p.code / 4096 % 64, 0x80 + p.code / 64 % 64,
                0x80 + p.code % 64])
  {
    hide Fold;
    var bits := t[0] as int % 8;
    FoldGood(t, 3, bits);
    FoldThree(t, bits);
    var two := bits * 64 + Low(t[1]);
    var three := two * 64 + Low(t[2]);
    var code := three * 64 + Low(t[3]);
    Digit(code, three, Low(t[3]));
    Digit(three, two, Low(t[2]));
    Digit(two, bits, Low(t[1]));
    Shifts(code);
  }

  lemma ShortestOne(t: seq<byte>)
    requires |t| > 0 && DecodeOne(t).Good?
    ensures t[..DecodeOne(t).value.width] == Utf8(DecodeOne(t).value.code) <==> !OverlongAt(t)
    ensures !OverlongAt(t) ==> DecodeOne(t).value.code != 0
    ensures |Utf8(DecodeOne(t).value.code)| <= DecodeOne(t).value.width
  {
    if t[0] < 0x80 {
      assert Fold(t, 1, 0, t[0]) == Good(t[0]);
    } else if t[0] < 0xE0 {
      ShortestTwo(t);
    } else if t[0] < 0xF0 {
      ShortestThree(t);
    } else {
      ShortestFour(t);
    }
  }

  lemma {:induction false} ShortestAll(t: seq<byte>)
    requires Points(t).Good?
    ensures Shortest(t) ==> Text(Points(t).value)
    ensures |Utf8All(Points(t).value)| <= |t|
    ensures Utf8All(Points(t).value) == t <==> Shortest(t)
    decreases |t|
  {
    if t != [] {
      var p := DecodeOne(t).value;
      var rest := t[p.width..];
      ShortestOne(t);
      ShortestAll(rest);
      var cs := Points(t).value;
      assert cs[1..] == Points(rest).value;
      assert t == t[..p.width] + rest;
      if Utf8All(cs) == t && !OverlongAt(t) {
        assert Utf8All(cs)[p.width..] == rest;
      }
    }
  }

  /** A text is shortest-form UTF-8 without NUL exactly when the encoder accepts it and it never meets
      an overlong form; the encoder itself does not look for those. */
  lemma AcceptedShortestIff(t: seq<byte>)
    ensures (Encoded(t).Good? && Shortest(t)) <==> exists cs: seq<nat> :: Text(cs) && Utf8All(cs) == t
  {
    if Encoded(t).Good? && Shortest(t) {
      ShortestAll(t);
    }
    if cs: seq<nat> :| Text(cs) && Utf8All(cs) == t {
      PointsOfUtf8(cs);
      ShortestAll(t);
    }
  }

  /** The overlong forms of zero. */
  predicate ZeroAt(t: seq<byte>) {
    [0xC0, 0x80] <= t || [0xE0, 0x80, 0x80] <= t || [0xF0, 0x80, 0x80, 0x80] <= t
  }

  /** An overlong zero where the encoder starts a code point. */
  predicate MeetsZero(t: seq<byte>)
    decreases |t|
  {
    t != [] && (ZeroAt(t) || (DecodeOne(t).Good? && MeetsZero(t[DecodeOne(t).value.width..])))
  }

  lemma ZeroOneIff(t: seq<byte>)
    requires |t| > 0 && DecodeOne(t).Good?
    ensures DecodeOne(t).value.code == 0 <==> ZeroAt(t)
  {
    hide Fold;
    if t[0] < 0x80 {
      ShortestOne(t);
    } else if t[0] < 0xE0 {
      ShortestTwo(t);
    } else if t[0] < 0xF0 {
      ShortestThree(t);
    } else {
      ShortestFour(t);
    }
  }

  lemma {:induction false} ZeroPointIff(t: seq<byte>)
    requires Points(t).Good?
    ensures 0 in Points(t).value <==> MeetsZero(t)
    decreases |t|
  {
    hide ZeroAt;
    if t != [] {
      ZeroOneIff(t);
      ZeroPointIff(t[DecodeOne(t).value.width..]);
    }
  }

  /** Exactly when a zero unit stands before the terminator: when some code point starts with an
      overlong form of zero. The single-byte zero is refused. */
  lemma ZeroUnitIff(t: seq<byte>)
    requires Encoded(t).Good?
    ensures Encoded(t).value == UnitsAll(Points(t).value) + [0]
    ensures 0 in UnitsAll(Points(t).value) <==> MeetsZero(t)
  {
    ZeroPointIff(t);
    UnitsDecode(Points(t).value);
  }

  /** The two-byte form of zero is accepted, and puts a second zero in front of the terminator. */
  lemma OverlongZero()
    ensures Encoded([0xC0, 0x80]) == Good([0, 0])
  {
    var t := [0xC0, 0x80];
    assert Fold(t, 1, 1, 0) == Fold(t, 2, 1, 0);
    assert DecodeOne(t) == Good(Point(0, 2));
    assert t[2..] == [];
    assert Points(t[2..]) == Good([]);
    var zero: seq<nat> := [0];
    assert zero + [] == zero;
    assert Points(t) == Good(zero);
    EncodedGood(t, zero);
    assert zero[1..] == [];
    assert UnitsAll(zero) == Units(0) + UnitsAll(zero[1..]) == [0];
    assert UnitsAll(zero) + [0] == [0, 0];
  }

  // ---- Back to bytes ------------------------------------------------------------------------------------------------

  /** The bytes of one unit; surrogates are not paired. */
  function UnitBytes(unit: Unit): seq<byte> {
    if unit < 0x80 then [unit]
    else if unit < 0x800 then [0xC0 + unit / 64, 0x80 + unit % 64]
    else [0xE0 + unit / 4096, 0x80 + unit / 64 % 64, 0x80 + unit % 64]
  }

  /** The bytes of the units before the first zero. */
  function UnitsToBytes(units: seq<Unit>): seq<byte> {
    if units == [] || units[0] == 0 then [] else UnitBytes(units[0]) + UnitsToBytes(units[1..])
  }

  /** Which bytes stand for a unit, a surrogate included: the shortest form that holds it. */
  lemma UnitReads(unit: Unit, rest: seq<Unit>)
    ensures UnitsToBytes([]) == [] && UnitsToBytes([0] + rest) == []
    ensures unit != 0 ==>
      var t, w := UnitsToBytes([unit] + rest), if unit < 0x80 then 1 else if unit < 0x800 then 2 else 3;
      && w <= |t| && Payload(t, w) == unit && t[w..] == UnitsToBytes(rest)
      && (w == 1 ==> t[0] < 0x80) && (w == 2 ==> 0xC0 <= t[0] < 0xE0) && (w == 3 ==> 0xE0 <= t[0] < 0xF0)
      && forall k | 1 <= k < w :: Continues(t[k])
  {
    assert ([unit] + rest)[1..] == rest;
    if unit != 0 {
      var t := UnitsToBytes([unit] + rest);
      assert t == UnitBytes(unit) + UnitsToBytes(rest);
      hide UnitsToBytes;
      UnitHolds(unit, t, UnitsToBytes(rest));
    }
  }

  lemma UnitHolds(unit: Unit, t: seq<byte>, rest: seq<byte>)
    requires t == UnitBytes(unit) + rest
    ensures var w := if unit < 0x80 then 1 else if unit < 0x800 then 2 else 3;
      && w <= |t| && Payload(t, w) == unit && t[w..] == rest
      && (w == 1 ==> t[0] < 0x80) && (w == 2 ==> 0xC0 <= t[0] < 0xE0) && (w == 3 ==> 0xE0 <= t[0] < 0xF0)
      && forall k | 1 <= k < w :: Continues(t[k])
  {
    var bytes := UnitBytes(unit);
    assert t[..|bytes|] == bytes && t[|bytes|..] == rest;
    assert forall k | 0 <= k < |bytes| :: t[k] == bytes[k];
    hide UnitBytes;
    UnitForm(unit);
  }

  lemma UnitForm(unit: Unit)
    ensures var t, w := UnitBytes(unit), if unit < 0x80 then 1 else if unit < 0x800 then 2 else 3;
      && |t| == w && Payload(t, w) == unit
      && (w == 1 ==> t[0] < 0x80) && (w == 2 ==> 0xC0 <= t[0] < 0xE0) && (w == 3 ==> 0xE0 <= t[0] < 0xF0)
      && forall k | 1 <= k < w :: Continues(t[k])
  {
    if 0x80 <= unit < 0x800 {
      TwoDigits(unit);
    } else if 0x800 <= unit {
      ThreeDigits(unit);
    }
  }

  lemma TwoDigits(unit: Unit)
    requires 0x80 <= unit < 0x800
    ensures (0xC0 + unit / 64) % 0x20 * 0x40 + (0x80 + unit % 64) % 64 == unit
  {
    Base64(unit);
  }

  lemma ThreeDigits(unit: Unit)
    requires 0x800 <= unit
    ensures (0xE0 + unit / 4096) % 0x10 * 0x1000 + (0x80 + unit / 64 % 64) % 64 * 0x40 + (0x80 + unit % 64) % 64 == unit
  {
    Base64(unit);
  }

  lemma BytesStep(before: seq<byte>, units: seq<Unit>, cursor: nat)
    requires cursor < |units| && units[cursor] != 0
    ensures before + UnitsToBytes(units[cursor..])
        == before + UnitBytes(units[cursor]) + UnitsToBytes(units[cursor + 1..])
    ensures 0 in units[cursor..] ==> 0 in units[cursor + 1..]
  {
    assert units[cursor..] == [units[cursor]] + units[cursor + 1..];
  }

  lemma BytesEnd(units: seq<Unit>, cursor: nat)
    requires cursor < |units| && units[cursor] == 0
    ensures UnitsToBytes(units[cursor..]) == []
    ensures cursor == 0 ==> UnitsToBytes(units) == []
  {
  }

  /** A null pointer is an empty text. */
  method Utf16ToUtf8(text: Option<seq<Unit>>) returns (utf8: seq<byte>)
    requires text.Some? ==> 0 in text.value
    ensures utf8 == if text.None? then [] else UnitsToBytes(text.value)
  {
    hide UnitsToBytes;
    utf8 := [];
    if text.None? {
      return;
    }
    var units := text.value;
    var cursor := 0;
    assert units[0..] == units;
    while units[cursor] != 0
      invariant cursor < |units| && 0 in units[cursor..]
      invariant UnitsToBytes(units) == utf8 + UnitsToBytes(units[cursor..])
      decreases |units| - cursor
    {
      var unit := units[cursor];
      ghost var before := utf8;
      if unit < 0x80 {
        utf8 := utf8 + [unit];
      } else if unit < 0x800 {
        utf8 := utf8 + [0xC0 + unit / 64];
        utf8 := utf8 + [0x80 + unit % 64];
      } else {
        utf8 := utf8 + [0xE0 + unit / 4096];
        utf8 := utf8 + [0x80 + unit / 64 % 64];
        utf8 := utf8 + [0x80 + unit % 64];
      }
      assert utf8 == before + UnitBytes(unit);
      BytesStep(before, units, cursor);
      cursor := cursor + 1;
    }
    BytesEnd(units, cursor);
  }

  /** How many scalar values lie above the basic plane. */
  function Supplementary(cs: seq<nat>): nat {
    if cs == [] then 0 else (if cs[0] > 0xFFFF then 1 else 0) + Supplementary(cs[1..])
  }

  lemma OneBack(c: nat, rest: seq<Unit>)
    requires Scalar(c) && c != 0
    ensures c <= 0xFFFF ==> UnitsToBytes(Units(c) + rest) == Utf8(c) + UnitsToBytes(rest)
    ensures c > 0xFFFF ==> |UnitsToBytes(Units(c) + rest)| == |Utf8(c)| + 2 + |UnitsToBytes(rest)|
  {
    var us := Units(c) + rest;
    if c <= 0xFFFF {
      assert us[1..] == rest;
    } else {
      assert us[1..] == [us[1]] + rest && us[1..][1..] == rest;
    }
  }

  lemma {:induction false} BytesBack(cs: seq<nat>)
    requires Text(cs)
    ensures Supplementary(cs) == 0 ==> UnitsToBytes(UnitsAll(cs) + [0]) == Utf8All(cs)
    ensures |UnitsToBytes(UnitsAll(cs) + [0])| == |Utf8All(cs)| + 2 * Supplementary(cs)
  {
    hide UnitsToBytes, Units, Utf8;
    if cs == [] {
      BytesEnd([0], 0);
      assert UnitsAll(cs) + [0] == [0];
    } else {
      var rest := UnitsAll(cs[1..]) + [0];
      BytesBack(cs[1..]);
      OneBack(cs[0], rest);
      assert UnitsAll(cs) + [0] == Units(cs[0]) + rest;
    }
  }

  /** The way back returns the original bytes exactly for text inside the basic plane: each scalar
      value above it comes back two bytes longer. */
  lemma BytesBackIff(cs: seq<nat>)
    requires Text(cs)
    ensures UnitsToBytes(UnitsAll(cs) + [0]) == Utf8All(cs) <==> forall i: nat | i < |cs| :: cs[i] <= 0xFFFF
  {
    BytesBack(cs);
    NoneSupplementary(cs);
  }

  /** The first scalar value above the basic plane does not come back. */
  lemma SupplementaryLost()
    ensures Text([0x10000])
    ensures UnitsToBytes(UnitsAll([0x10000]) + [0]) != Utf8All([0x10000])
  {
    hide UnitsToBytes, UnitsAll, Utf8All;
    BytesBackIff([0x10000]);
    assert [0x10000][0] > 0xFFFF;
  }

  lemma {:induction false} NoneSupplementary(cs: seq<nat>)
    ensures Supplementary(cs) == 0 <==> forall i: nat | i < |cs| :: cs[i] <= 0xFFFF
  {
    if cs != [] {
      NoneSupplementary(cs[1..]);
      assert cs == [cs[0]] + cs[1..];
    }
  }

  // ---- Code points of a text ---------------------------------------------------------------------------

  /** The width the lead byte announces. */
  function LeadWidth(lead: byte): nat {
    if lead < 0x80 then 1 else if lead / 32 == 6 then 2 else if lead / 16 == 14 then 3 else 4
  }

  function Width(t: seq<byte>): (w: nat)
    requires |t| > 0
    ensures 1 <= w <= |t|
  {
    if LeadWidth(t[0]) < |t| then LeadWidth(t[0]) else |t|
  }

  /** A text cut into code points by lead bytes alone; the last may be short. */
  function CodePoints(t: seq<byte>): seq<seq<byte>>
    decreases |t|
  {
    if t == [] then [] else [t[..Width(t)]] + CodePoints(t[Width(t)..])
  }

  lemma CutNone()
    ensures CodePoints([]) == []
  {
  }

  lemma CutStep(before: seq<seq<byte>>, t: seq<byte>)
    requires |t| > 0
    ensures before + CodePoints(t) == before + [t[..Width(t)]] + CodePoints(t[Width(t)..])
  {
  }

  method Utf8CodePoints(text: seq<byte>) returns (points: seq<seq<byte>>)
    ensures points == CodePoints(text)
  {
    CutNone();
    hide CodePoints;
    points := [];
    var i := 0;
    assert text[0..] == text;
    while i < |text|
      invariant i <= |text| && CodePoints(text) == points + CodePoints(text[i..])
      decreases |text| - i
    {
      ghost var t := text[i..];
      var width := LeadWidth(text[i]);
      if |text| - i < width {
        width := |text| - i;
      }
      assert width == Width(t) && t[..width] == text[i..i + width] && t[width..] == text[i + width..];
      CutStep(points, t);
      points := points + [text[i..i + width]];
      i := i + width;
    }
    assert text[i..] == [];
  }

  function Flatten(parts: seq<seq<byte>>): seq<byte> {
    if parts == [] then [] else parts[0] + Flatten(parts[1..])
  }

  /** The first byte decides how much is cut off, also where it continues a character or fits none. */
  lemma CutFirst(t: seq<byte>)
    requires |t| > 0
    ensures var w := if t[0] < 0x80 then 1 else if 0xC0 <= t[0] < 0xE0 then 2 else if 0xE0 <= t[0] < 0xF0 then 3 else 4;
      CodePoints(t) == if w < |t| then [t[..w]] + CodePoints(t[w..]) else [t]
  {
    CutNone();
    CutStep([], t);
    assert [] + CodePoints(t) == CodePoints(t) && [] + [t[..Width(t)]] == [t[..Width(t)]];
    hide CodePoints;
    LeadIs(t[0]);
    assert t[..|t|] == t && t[|t|..] == [];
    hide LeadWidth;
  }

  lemma LeadIs(b: byte)
    ensures LeadWidth(b) == if b < 0x80 then 1 else if 0xC0 <= b < 0xE0 then 2 else if 0xE0 <= b < 0xF0 then 3 else 4
  {
  }

  /** Cutting loses no byte, whatever the bytes are. */
  lemma {:induction false} CutKeepsBytes(t: seq<byte>)
    ensures Flatten(CodePoints(t)) == t
    decreases |t|
  {
    if t != [] {
      CutKeepsBytes(t[Width(t)..]);
      assert CodePoints(t)[1..] == CodePoints(t[Width(t)..]);
    }
  }

  /** On well-formed text each part is one scalar value. */
  lemma {:induction false} CutAtScalars(cs: seq<nat>)
    requires Text(cs)
    ensures |CodePoints(Utf8All(cs))| == |cs|
    ensures forall i: nat | i < |cs| :: CodePoints(Utf8All(cs))[i] == Utf8(cs[i])
  {
    if cs != [] {
      var t := Utf8All(cs);
      var one := Utf8(cs[0]);
      CutAtScalars(cs[1..]);
      assert Width(t) == |one|;
      assert t[..|one|] == one && t[|one|..] == Utf8All(cs[1..]);
    }
  }
}
