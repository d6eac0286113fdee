/** Cutting a long value down to a number of bytes, between characters. */
module Utf8Cut {
  import opened Text

  type Byte = b: int | 0 <= b < 256

  /** Unicode scalar values. */
  type Rune = c: int | 0 <= c < 0xD800 || 0xE000 <= c < 0x110000

  /** Section 3 of RFC 3629. */
  function Encode(c: Rune): (bytes: seq<Byte>)
    ensures 1 <= |bytes| <= 4 && IsStart(bytes[0])
    ensures forall i :: 1 <= i < |bytes| ==> !IsStart(bytes[i])
  {
    if c < 0x80 then [c]
    else if c < 0x800 then [0xC0 + c / 0x40, Tail(c)]
    else if c < 0x10000 then [0xE0 + c / 0x1000, Tail(c / 0x40), Tail(c)]
    else [0xF0 + c / 0x40000, Tail(c / 0x1000), Tail(c / 0x40), Tail(c)]
  }

  function Tail(c: nat): Byte {
    0x80 + c % 0x40
  }

  /** Not a continuation byte. */
  predicate IsStart(b: Byte) {
    !(0x80 <= b < 0xC0)
  }

  function EncodeAll(runes: seq<Rune>): seq<Byte> {
    if runes == [] then [] else Encode(runes[0]) + EncodeAll(runes[1..])
  }

  /** Back to the start of a character. */
  function BackUp(val: seq<Byte>, cut: nat): (r: nat)
    requires cut < |val|
    ensures r <= cut && (r == 0 || IsStart(val[r]))
    ensures forall i :: r < i <= cut ==> !IsStart(val[i])
  {
    if cut > 0 && !IsStart(val[cut]) then BackUp(val, cut - 1) else cut
  }

  /** The bytes of a text of the first 128 characters. */
  function Ascii(s: string): (bytes: seq<Byte>)
    ensures |bytes| == |s| && forall i :: 0 <= i < |s| ==> bytes[i] == s[i] as int % 128
  {
    if s == [] then [] else [s[0] as int % 128] + Ascii(s[1..])
  }

  /** How much there was, in bytes. */
  function Notice(total: nat): seq<Byte> {
    Ascii("...(truncated, total " + Itoa(total) + " chars)")
  }

  function Truncated(val: seq<Byte>, maxLen: nat): seq<Byte> {
    if |val| <= maxLen then val else val[..BackUp(val, maxLen)] + Notice(|val|)
  }

  /** Behind the cut only the rest of a character, up to the limit. */
  ghost predicate IsCut(val: seq<Byte>, maxLen: nat, cut: nat)
    requires cut <= maxLen < |val|
  {
    (cut == 0 || !(0x80 <= val[cut] < 0xC0)) && forall i :: cut < i <= maxLen ==> 0x80 <= val[i] < 0xC0
  }

  method TruncateFieldValue(val: seq<Byte>, maxLen: nat) returns (r: seq<Byte>)
    ensures r == Truncated(val, maxLen)
    ensures |val| <= maxLen ==> r == val
    ensures |val| > maxLen ==>
      exists cut :: 0 <= cut <= maxLen && IsCut(val, maxLen, cut) &&
        r == val[..cut] + Ascii("...(truncated, total " + Itoa(|val|) + " chars)")
  {
    if |val| <= maxLen {
      return val;
    }
    var cut := maxLen;
    while cut > 0 && !IsStart(val[cut])
      invariant 0 <= cut <= maxLen && BackUp(val, cut) == BackUp(val, maxLen)
    {
      cut := cut - 1;
    }
    return val[..cut] + Notice(|val|);
  }

  lemma {:induction false} BackUpIs(val: seq<Byte>, cut: nat, r: nat)
    requires r <= cut < |val| && (r == 0 || IsStart(val[r]))
    requires forall i :: r < i <= cut ==> !IsStart(val[i])
    ensures BackUp(val, cut) == r
  {
    if cut > r {
      BackUpIs(val, cut - 1, r);
    }
  }

  /** A first character, and what backing up does behind it. */
  lemma BackUpBehind(first: seq<Byte>, rest: seq<Byte>, cut: nat, c: nat)
    requires c < |rest| && cut == |first| + c && IsStart(rest[0])
    ensures BackUp(first + rest, cut) == |first| + BackUp(rest, c)
  {
    var m := |first|;
    var b := BackUp(rest, c);
    assert forall i :: m <= i < m + |rest| ==> (first + rest)[i] == rest[i - m];
    BackUpIs(first + rest, cut, m + b);
  }

  lemma OneRune(runes: seq<Rune>, k: nat)
    requires k < |runes|
    ensures EncodeAll(runes[..k + 1]) == Encode(runes[0]) + EncodeAll(runes[1..][..k])
  {
    assert runes[..k + 1][0] == runes[0] && runes[..k + 1][1..] == runes[1..][..k];
  }

  lemma TakeBehind(
    val: seq<Byte>, first: seq<Byte>, rest: seq<Byte>, cut: nat, b: nat, kept: seq<Byte>, keptRest: seq<Byte>
  )
    requires val == first + rest && b <= |rest| && cut == |first| + b
    requires kept == first + keptRest && rest[..b] == keptRest
    ensures val[..cut] == kept
  {
  }

  /** k characters are kept, and no more would fit. */
  predicate KeepsRunes(runes: seq<Rune>, maxLen: nat, k: nat)
    requires maxLen < |EncodeAll(runes)|
  {
    && k < |runes|
    && EncodeAll(runes)[..BackUp(EncodeAll(runes), maxLen)] == EncodeAll(runes[..k])
    && |EncodeAll(runes[..k])| <= maxLen < |EncodeAll(runes[..k + 1])|
  }

  lemma CutInFirst(runes: seq<Rune>, maxLen: nat)
    requires runes != [] && maxLen < |Encode(runes[0])|
    ensures maxLen < |EncodeAll(runes)| && KeepsRunes(runes, maxLen, 0)
  {
    var val, first := EncodeAll(runes), Encode(runes[0]);
    assert forall i :: 0 <= i < |first| ==> val[i] == first[i];
    BackUpIs(val, maxLen, 0);
    OneRune(runes, 0);
    assert runes[1..][..0] == [];
  }

  lemma CutBehindFirst(runes: seq<Rune>, maxLen: nat, c: nat, k: nat)
    requires runes != [] && maxLen == |Encode(runes[0])| + c && maxLen < |EncodeAll(runes)|
    requires KeepsRunes(runes[1..], c, k)
    ensures KeepsRunes(runes, maxLen, k + 1)
  {
    var first, rest := Encode(runes[0]), EncodeAll(runes[1..]);
    BackUpBehind(first, rest, maxLen, c);
    OneRune(runes, k);
    OneRune(runes, k + 1);
    TakeBehind(EncodeAll(runes), first, rest, BackUp(EncodeAll(runes), maxLen), BackUp(rest, c),
               EncodeAll(runes[..k + 1]), EncodeAll(runes[1..][..k]));
  }

  /** Of a well-formed text the cut keeps whole characters, and as many as fit. */
  lemma {:induction false} CutBetweenRunes(runes: seq<Rune>, maxLen: nat) returns (k: nat)
    requires maxLen < |EncodeAll(runes)|
    ensures k < |runes|
    ensures EncodeAll(runes)[..BackUp(EncodeAll(runes), maxLen)] == EncodeAll(runes[..k])
    ensures |EncodeAll(runes[..k])| <= maxLen < |EncodeAll(runes[..k + 1])|
  {
    var m := |Encode(runes[0])|;
    if maxLen < m {
      k := 0;
      CutInFirst(runes, maxLen);
    } else {
      var j := CutBetweenRunes(runes[1..], maxLen - m);
      k := j + 1;
      CutBehindFirst(runes, maxLen, maxLen - m, j);
    }
  }
}
