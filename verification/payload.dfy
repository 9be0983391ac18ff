/** Parsers of the pty-req and window-change payloads, over the data types of section 5 of RFC 4251. */
module Payload {
  import opened Common

  const U32: nat := 0x1_0000_0000

  type Uint32 = x: nat | x < 0x1_0000_0000

  datatype Window = Window(width: nat, height: nat)

  datatype Pty = Pty(term: seq<Byte>, window: Window)

  /** `Panic` is Go's slice-bounds panic. */
  datatype Parsed<+T> = Refused | Panic | Parsed(value: T, rest: seq<Byte>)

  function BigEndian(b: seq<Byte>): (n: Uint32)
    requires |b| >= 4
  {
    var b0: int, b1: int, b2: int, b3: int := b[0], b[1], b[2], b[3];
    ((b0 * 256 + b1) * 256 + b2) * 256 + b3
  }

  function EncodeUint32(n: Uint32): (b: seq<Byte>)
    ensures |b| == 4
  {
    [n / 256 / 256 / 256, n / 256 / 256 % 256, n / 256 % 256, n % 256]
  }

  function EncodeString(s: seq<Byte>): seq<Byte>
    requires |s| < U32
  {
    EncodeUint32(|s|) + s
  }

  function ParseUint32(s: seq<Byte>): Parsed<Uint32> {
    if |s| < 4 then Refused else Parsed(BigEndian(s), s[4..])
  }

  /** All arithmetic on the length is 32-bit. */
  function ParseString(s: seq<Byte>): Parsed<seq<Byte>> {
    if |s| < 4 then Refused
    else
      var end := (4 + BigEndian(s)) % U32;
      if |s| % U32 < end then Refused
      else if end < 4 then Panic
      else Parsed(s[4..end], s[end..])
  }

  function ParsePtyRequest(s: seq<Byte>): Parsed<Pty> {
    var term := ParseString(s);
    if !term.Parsed? then (if term.Panic? then Panic else Refused)
    else
      var width := ParseUint32(term.rest);
      if !width.Parsed? then Refused
      else
        var height := ParseUint32(width.rest);
        if !height.Parsed? then Refused
        else Parsed(Pty(term.value, Window(width.value, height.value)), height.rest)
  }

  function ParseWinchRequest(s: seq<Byte>): Option<Window> {
    var width := ParseUint32(s);
    if !width.Parsed? || width.value < 1 then None
    else
      var height := ParseUint32(width.rest);
      if !height.Parsed? || height.value < 1 then None
      else Some(Window(width.value, height.value))
  }

  // ---------------------------------------------------------------- encodings

  lemma DecodeEncode(n: Uint32, suffix: seq<Byte>)
    ensures BigEndian(EncodeUint32(n) + suffix) == n
  {
  }

  lemma EncodeDecode(s: seq<Byte>)
    requires |s| >= 4
    ensures EncodeUint32(BigEndian(s)) == s[..4]
  {
    var b0: int, b1: int, b2: int, b3: int := s[0], s[1], s[2], s[3];
    var n := BigEndian(s);
    assert n / 256 == (b0 * 256 + b1) * 256 + b2 && n % 256 == b3;
    assert n / 256 / 256 == b0 * 256 + b1 && n / 256 % 256 == b2;
    assert n / 256 / 256 / 256 == b0 && n / 256 / 256 % 256 == b1;
  }

  /** A uint32 parses exactly when the input starts with its encoding. */
  lemma Uint32Exact(s: seq<Byte>, n: Uint32, rest: seq<Byte>)
    ensures ParseUint32(s) == Parsed(n, rest) <==> s == EncodeUint32(n) + rest
    ensures ParseUint32(s) == Parsed(n, rest) <==>
            && |s| >= 4 && rest == s[4..]
            && n == s[0] as int * 0x100_0000 + s[1] as int * 0x1_0000 + s[2] as int * 0x100 + s[3] as int
  {
    if |s| >= 4 {
      EncodeDecode(s);
      assert s == s[..4] + s[4..];
    }
    if s == EncodeUint32(n) + rest {
      DecodeEncode(n, rest);
    }
  }

  lemma ParseEncodedString(v: seq<Byte>, rest: seq<Byte>)
    requires |v| + 4 < U32 && |EncodeString(v) + rest| < U32
    ensures ParseString(EncodeString(v) + rest) == Parsed(v, rest)
  {
  }

  lemma EncodeParsedString(s: seq<Byte>)
    requires |s| < U32 && ParseString(s).Parsed?
    ensures |ParseString(s).value| + 4 < U32
    ensures s == EncodeString(ParseString(s).value) + ParseString(s).rest
  {
    hide EncodeUint32, BigEndian;
    EncodeDecode(s);
    var end := 4 + BigEndian(s);
    assert s == s[..4] + s[4..];
    assert s[4..] == s[4..end] + s[end..];
  }

  /** For inputs under 2^32 bytes: a string parses exactly when the input starts with its encoding. */
  lemma StringExact(s: seq<Byte>, v: seq<Byte>, rest: seq<Byte>)
    requires |s| < 0x1_0000_0000
    ensures ParseString(s) == Parsed(v, rest) <==> |v| + 4 < 0x1_0000_0000 && s == EncodeUint32(|v|) + v + rest
  {
    hide ParseString, EncodeUint32;
    if |v| + 4 < U32 && s == EncodeUint32(|v|) + v + rest {
      ParseEncodedString(v, rest);
    }
    if ParseString(s).Parsed? {
      EncodeParsedString(s);
    }
  }

  /**
   For payloads under 2^32 bytes pty-req parses to a pty exactly when the payload
   starts with the encoding of section 6.2 of RFC 4254, whatever follows; so the
   parser inverts the encoder and ignores pixel sizes, modes and any other suffix.
   */
  lemma PtyRequestExact(s: seq<Byte>, pty: Pty, rest: seq<Byte>)
    requires |s| < 0x1_0000_0000
    ensures ParsePtyRequest(s) == Parsed(pty, rest) <==>
            && |pty.term| + 4 < 0x1_0000_0000 && pty.window.width < 0x1_0000_0000 && pty.window.height < 0x1_0000_0000
            && s == EncodeUint32(|pty.term|) + pty.term +
                    EncodeUint32(pty.window.width) + EncodeUint32(pty.window.height) + rest
  {
    var w, h := pty.window.width, pty.window.height;
    if |pty.term| + 4 < U32 && w < U32 && h < U32 {
      var rest1 := EncodeUint32(h) + rest;
      var rest2 := EncodeUint32(w) + rest1;
      StringExact(s, pty.term, rest2);
      Uint32Exact(rest2, w, rest1);
      Uint32Exact(rest1, h, rest);
      assert EncodeUint32(|pty.term|) + pty.term + EncodeUint32(w) + EncodeUint32(h) + rest ==
             EncodeUint32(|pty.term|) + pty.term + rest2;
    }
    if ParsePtyRequest(s) == Parsed(pty, rest) {
      var term := ParseString(s);
      StringExact(s, term.value, term.rest);
      var width := ParseUint32(term.rest);
      Uint32Exact(term.rest, width.value, width.rest);
      var height := ParseUint32(width.rest);
      Uint32Exact(width.rest, height.value, height.rest);
    }
  }

  /**
   The three outcomes of pty-req parsing by what is present: the terminal string and
   two uint32s parse; a declared length of 2^32-4 or more overflows; the rest is refused.
   */
  lemma PtyRequestOutcome(s: seq<Byte>)
    requires |s| < 0x1_0000_0000
    ensures ParsePtyRequest(s).Panic? <==> |s| >= 4 && BigEndian(s) >= 0xffff_fffc
    ensures ParsePtyRequest(s).Parsed? <==>
            |s| >= 4 && BigEndian(s) < 0xffff_fffc && |s| >= 4 + BigEndian(s) + 8
  {
  }

  /** window-change is accepted exactly with at least 8 bytes and both dimensions at least 1. */
  lemma WinchExact(s: seq<Byte>)
    ensures ParseWinchRequest(s).Some? <==> |s| >= 8 && BigEndian(s) >= 1 && BigEndian(s[4..]) >= 1
    ensures forall w: Uint32, h: Uint32, rest: seq<Byte> ::
              s == EncodeUint32(w) + EncodeUint32(h) + rest && w >= 1 && h >= 1 ==>
              ParseWinchRequest(s) == Some(Window(w, h))
  {
    forall w: Uint32, h: Uint32, rest: seq<Byte> | s == EncodeUint32(w) + EncodeUint32(h) + rest && w >= 1 && h >= 1
      ensures ParseWinchRequest(s) == Some(Window(w, h))
    {
      assert s == EncodeUint32(w) + (EncodeUint32(h) + rest);
      Uint32Exact(s, w, EncodeUint32(h) + rest);
      Uint32Exact(EncodeUint32(h) + rest, h, rest);
    }
  }
}
