/** Chunked framing of a response, and an independent reader of the chunked coding of
    section 7.1 of RFC 9112 (without chunk extensions and trailer fields). */
module ChunkFraming {
  import opened Wrappers

  type byte = x: int | 0 <= x < 256

  const CRLF: seq<byte> := [13, 10]
  const ZERO: byte := 48
  const PLACEHOLDER: seq<byte> := [ZERO, ZERO, ZERO, ZERO, ZERO, ZERO, ZERO, ZERO] + CRLF
  /** CRLF, the last chunk, an empty trailer section - and the NUL that `sizeof` counts in. */
  const FINISH: seq<byte> := CRLF + [ZERO] + CRLF + CRLF + [0]
  const LIMIT := 0x1_0000_0000

  // ----- hexadecimal

  function HexDigit(d: nat): byte
    requires d < 16
  {
    if d < 10 then 48 + d else 87 + d
  }

  /** `n` in `w` lower-case digits, higher ones dropped. */
  function HexFixed(n: nat, w: nat): (s: seq<byte>)
    ensures |s| == w
  {
    if w == 0 then [] else HexFixed(n / 16, w - 1) + [HexDigit(n % 16)]
  }

  function DigitValue(b: byte): Option<nat> {
    if 48 <= b <= 57 then Some(b - 48)
    else if 97 <= b <= 102 then Some(b - 87)
    else if 65 <= b <= 70 then Some(b - 55)
    else None
  }

  /** How many hexadecimal digits `s` starts with. */
  function HexRun(s: seq<byte>): (k: nat)
    ensures k <= |s| && forall i :: 0 <= i < k ==> DigitValue(s[i]).Some?
  {
    if s == [] || DigitValue(s[0]).None? then 0 else 1 + HexRun(s[1..])
  }

  function HexValue(s: seq<byte>): nat
    requires forall i :: 0 <= i < |s| ==> DigitValue(s[i]).Some?
  {
    if s == [] then 0 else 16 * HexValue(s[..|s| - 1]) + DigitValue(s[|s| - 1]).value
  }

  function Cap(w: nat): nat {
    if w == 0 then 1 else 16 * Cap(w - 1)
  }

  lemma {:induction false} HexRoundTrip(n: nat, w: nat)
    requires n < Cap(w)
    ensures var s := HexFixed(n, w);
      (forall i :: 0 <= i < w ==> DigitValue(s[i]).Some?) && HexValue(s) == n
  {
    if w == 0 {
    } else {
      HexRoundTrip(n / 16, w - 1);
      var s := HexFixed(n, w);
      assert s[..w - 1] == HexFixed(n / 16, w - 1);
    }
  }

  /** The digits are "0" to "9" and "a" to "f", the last one for the number modulo 16. */
  lemma {:induction false} DigitsAreLowerCase(n: nat, w: nat)
    ensures forall b :: b in HexFixed(n, w) ==> 48 <= b <= 57 || 97 <= b <= 102
    ensures w > 0 ==> HexFixed(n, w)[w - 1] == if n % 16 < 10 then 48 + n % 16 else 97 + (n % 16 - 10)
  {
    if w == 0 {
    } else {
      DigitsAreLowerCase(n / 16, w - 1);
    }
  }

  lemma {:induction false} HexRunOf(s: seq<byte>, rest: seq<byte>)
    requires forall i :: 0 <= i < |s| ==> DigitValue(s[i]).Some?
    requires rest != [] && DigitValue(rest[0]).None?
    ensures HexRun(s + rest) == |s|
  {
    if s == [] {
      assert s + rest == rest;
    } else {
      HexRunOf(s[1..], rest);
      assert (s + rest)[1..] == s[1..] + rest;
    }
  }

  // ----- reading the chunked coding

  datatype Decoded = Malformed | Decoded(body: seq<byte>, rest: seq<byte>)

  predicate StartsWithCRLF(s: seq<byte>) {
    |s| >= 2 && s[0] == 13 && s[1] == 10
  }

  function Decode(s: seq<byte>): Decoded
    decreases |s|
  {
    var k := HexRun(s);
    if k == 0 || !StartsWithCRLF(s[k..]) then Malformed
    else DecodeData(HexValue(s[..k]), s[k + 2..])
  }

  /** After a chunk-size line announcing `n` bytes. */
  function DecodeData(n: nat, s: seq<byte>): Decoded
    decreases |s|
  {
    if n == 0 then
      if StartsWithCRLF(s) then Decoded([], s[2..]) else Malformed
    else if |s| < n || !StartsWithCRLF(s[n..]) then Malformed
    else
      match Decode(s[n + 2..])
      case Malformed => Malformed
      case Decoded(body, rest) => Decoded(s[..n] + body, rest)
  }

  /** Each chunk costs at least five bytes besides its data. */
  lemma {:induction false} DecodeBudget(s: seq<byte>)
    ensures Decode(s).Decoded? ==>
      var d := Decode(s);
      |d.body| + |d.rest| + 5 <= |s| && (d.body != [] ==> |d.body| + |d.rest| + 10 <= |s|)
    decreases |s|
  {
    var k := HexRun(s);
    if k == 0 || !StartsWithCRLF(s[k..]) {
    } else {
      var n, r := HexValue(s[..k]), s[k + 2..];
      if 0 < n <= |r| && StartsWithCRLF(r[n..]) {
        DecodeBudget(r[n + 2..]);
      }
    }
  }

  // ----- writing

  function Framed(body: seq<byte>): seq<byte> {
    HexFixed(|body| % LIMIT, 8) + CRLF + body + FINISH
  }

  /** Eight digits, CR LF, the body, then CR LF 0 CR LF CR LF and a NUL. */
  lemma FrameLayout(body: seq<byte>)
    ensures var s := Framed(body);
      && |s| == |body| + 18 && s[..8] == HexFixed(|body| % 0x1_0000_0000, 8) && s[8..10] == [13, 10]
      && s[10..10 + |body|] == body && s[10 + |body|..] == [13, 10, 48, 13, 10, 13, 10, 0]
  {}

  lemma CapOf8()
    ensures Cap(8) == LIMIT
  {}

  lemma DecodeHead(hex: seq<byte>, rest: seq<byte>)
    requires hex != [] && (forall i :: 0 <= i < |hex| ==> DigitValue(hex[i]).Some?) && StartsWithCRLF(rest)
    ensures Decode(hex + rest) == DecodeData(HexValue(hex), rest[2..])
  {
    HexRunOf(hex, rest);
    var s := hex + rest;
    assert s[..|hex|] == hex && s[|hex|..] == rest && s[|hex| + 2..] == rest[2..];
  }

  lemma EightDigits(n: nat)
    requires n < LIMIT
    ensures var s := HexFixed(n, 8);
      (forall i :: 0 <= i < |s| ==> DigitValue(s[i]).Some?) && HexValue(s) == n
  {
    CapOf8();
    HexRoundTrip(n, 8);
  }

  lemma Regroup(a: seq<byte>, b: seq<byte>, c: seq<byte>, d: seq<byte>)
    requires |b| == 2
    ensures a + b + c + d == a + (b + (c + d)) && (b + (c + d))[2..] == c + d
  {}

  lemma DecodeFramed(body: seq<byte>)
    ensures Decode(Framed(body)) == DecodeData(|body| % LIMIT, body + FINISH)
  {
    var n: nat := |body| % LIMIT;
    EightDigits(n);
    Regroup(HexFixed(n, 8), CRLF, body, FINISH);
    DecodeHead(HexFixed(n, 8), CRLF + (body + FINISH));
  }

  lemma DecodeFinish()
    ensures Decode(FINISH[2..]) == Decoded([], [0])
  {
    var s := FINISH[2..];
    assert s == [ZERO] + (CRLF + CRLF + [0]);
    HexRunOf([ZERO], CRLF + CRLF + [0]);
    assert s[..1] == [ZERO] && s[1..] == CRLF + CRLF + [0] && s[3..] == CRLF + [0];
    assert HexValue([ZERO]) == 0 by { assert [ZERO][..0] == []; }
    assert (CRLF + [0])[2..] == [0];
  }

  lemma EmptyBody()
    ensures DecodeData(0, [] + FINISH) == Decoded([], FINISH[2..]) && |FINISH[2..]| == 6
  {}

  lemma OneChunk(body: seq<byte>, end: seq<byte>, rest: seq<byte>)
    requires 1 <= |body| && StartsWithCRLF(end) && Decode(end[2..]) == Decoded([], rest)
    ensures DecodeData(|body|, body + end) == Decoded(body, rest)
  {}

  lemma ShortBody(body: seq<byte>)
    requires 1 <= |body|
    ensures DecodeData(|body|, body + FINISH) == Decoded(body, [0])
  {
    DecodeFinish();
    OneChunk(body, FINISH, [0]);
  }

  lemma LongBody(body: seq<byte>, n: nat)
    requires n < |body|
    ensures var d := DecodeData(n, body + FINISH); d.Decoded? ==> d.body != body
  {
    var s := body + FINISH;
    if 0 < n && StartsWithCRLF(s[n..]) {
      DecodeBudget(s[n + 2..]);
    }
  }

  /** The reader gets the body back exactly when its length fits 32 bits, and then leaves just the NUL
      unless the body is empty (whose own frame already is a last chunk). */
  lemma FrameRoundTrip(body: seq<byte>)
    ensures var d := Decode(Framed(body));
      && (d.Decoded? && d.body == body <==> |body| < LIMIT)
      && (d == Decoded(body, [0]) <==> 1 <= |body| < LIMIT)
  {
    DecodeFramed(body);
    hide Framed, Decode, DecodeData;
    if |body| == 0 {
      EmptyBody();
      assert body == [];
    } else if |body| < LIMIT {
      ShortBody(body);
    } else {
      LongBody(body, |body| % LIMIT);
    }
  }

  lemma PatchedIsFramed(before: seq<byte>, body: seq<byte>, hex: seq<byte>)
    requires |hex| == 8
    ensures var s := before + PLACEHOLDER + body;
      s[..|before|] + hex + s[|before| + 8..] + FINISH == before + (hex + CRLF + body + FINISH)
  {}

  /** A growing output buffer; all writing is at its end. */
  class Stream {
    var data: seq<byte>

    constructor ()
      ensures data == []
    {
      data := [];
    }

    method Write(bytes: seq<byte>)
      modifies this
      ensures data == old(data) + bytes
    {
      data := data + bytes;
    }

    /** Leaves room for the length and returns where. */
    method StartChunk() returns (offset: nat)
      modifies this
      ensures offset == |old(data)| && data == old(data) + [48, 48, 48, 48, 48, 48, 48, 48, 13, 10]
    {
      offset := |data|;
      Write(PLACEHOLDER);
    }

    /** Patches the length of what was written since into the room left for it, and ends the body. */
    method FinishChunk(offset: nat)
      requires offset + 10 <= |data|
      modifies this
      ensures data == old(data)[..offset] + HexFixed((|old(data)| - offset - 10) % LIMIT, 8)
                      + old(data)[offset + 8..] + FINISH
      ensures forall i :: 0 <= i < |old(data)| && !(offset <= i < offset + 8) ==> data[i] == old(data)[i]
    {
      var hex := HexFixed((|data| - offset - 10) % LIMIT, 8);
      data := data[..offset] + hex + data[offset + 8..];
      Write(FINISH);
    }

    /** A header, then one body in a chunk: how every reply is built. */
    method Reply(header: seq<byte>, body: seq<byte>)
      modifies this
      ensures data == old(data) + header + Framed(body)
      ensures var sent := data[|old(data)| + |header|..];
        Decode(sent) == Decoded(body, [0]) <==> 1 <= |body| < LIMIT
    {
      hide HexFixed, Decode;
      ghost var was := data;
      Write(header);
      ghost var before := data;
      var offset := StartChunk();
      Write(body);
      FinishChunk(offset);
      PatchedIsFramed(before, body, HexFixed(|body| % LIMIT, 8));
      FrameRoundTrip(body);
      assert data == before + Framed(body);
      assert data[|was| + |header|..] == Framed(body);
    }
  }
}
