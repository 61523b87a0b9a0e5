/** Base64 as in section 4 of RFC 4648, with padding: how a MAC is kept in an object's status. */
module Base64 {
  import opened Results

  type Byte = b: nat | b < 256
  type Bytes = seq<Byte>

  function SextetChar(n: nat): (c: char)
    requires n < 64
    ensures CharSextet(c) == Some(n) && c != '='
  {
    if n < 26 then ('A' as int + n) as char
    else if n < 52 then ('a' as int + n - 26) as char
    else if n < 62 then ('0' as int + n - 52) as char
    else if n == 62 then '+'
    else '/'
  }

  function CharSextet(c: char): (n: Option<nat>)
    ensures n.Some? ==> n.value < 64
  {
    if 'A' <= c <= 'Z' then Some(c as int - 'A' as int)
    else if 'a' <= c <= 'z' then Some(c as int - 'a' as int + 26)
    else if '0' <= c <= '9' then Some(c as int - '0' as int + 52)
    else if c == '+' then Some(62)
    else if c == '/' then Some(63)
    else None
  }

  /** Three bytes make four characters; one or two bytes are padded. */
  function EncodeBlock(b: Bytes): (s: string)
    requires 1 <= |b| <= 3
    ensures |s| == 4
  {
    if |b| == 1 then
      [SextetChar(b[0] / 4), SextetChar(b[0] % 4 * 16), '=', '=']
    else if |b| == 2 then
      [SextetChar(b[0] / 4), SextetChar(b[0] % 4 * 16 + b[1] / 16), SextetChar(b[1] % 16 * 4), '=']
    else
      [SextetChar(b[0] / 4), SextetChar(b[0] % 4 * 16 + b[1] / 16),
       SextetChar(b[1] % 16 * 4 + b[2] / 64), SextetChar(b[2] % 64)]
  }

  function Encode(b: Bytes): (s: string)
    ensures |s| % 4 == 0 && (s == "" <==> b == [])
  {
    if b == [] then ""
    else if |b| <= 3 then EncodeBlock(b)
    else EncodeBlock(b[..3]) + Encode(b[3..])
  }

  /** Decodes one block of four characters; padding is only allowed in the last block. */
  function DecodeBlock(s: string, last: bool): Option<Bytes>
    requires |s| == 4
  {
    var x, y := CharSextet(s[0]), CharSextet(s[1]);
    if x.None? || y.None? then None
    else
      var b0 := x.value * 4 + y.value / 16;
      if last && s[2] == '=' && s[3] == '=' then Some([b0])
      else
        var z := CharSextet(s[2]);
        if z.None? then None
        else
          var b1 := y.value % 16 * 16 + z.value / 4;
          if last && s[3] == '=' then Some([b0, b1])
          else
            var w := CharSextet(s[3]);
            if w.None? then None else Some([b0, b1, z.value % 4 * 64 + w.value])
  }

  function Decode(s: string): Option<Bytes> {
    if s == "" then Some([])
    else if |s| < 4 then None
    else
      var block := DecodeBlock(s[..4], |s| == 4);
      var rest := Decode(s[4..]);
      if block.None? || rest.None? then None else Some(block.value + rest.value)
  }

  lemma DecodeEncodeOne(x: Byte)
    ensures DecodeBlock(EncodeBlock([x]), true) == Some([x])
  {
  }

  lemma DecodeEncodeTwo(x: Byte, y: Byte)
    ensures DecodeBlock(EncodeBlock([x, y]), true) == Some([x, y])
  {
  }

  lemma DecodeEncodeThree(x: Byte, y: Byte, z: Byte, last: bool)
    ensures DecodeBlock(EncodeBlock([x, y, z]), last) == Some([x, y, z])
  {
    var s := EncodeBlock([x, y, z]);
    var b, c := x % 4 * 16 + y / 16, y % 16 * 4 + z / 64;
    assert CharSextet(s[0]) == Some(x / 4) && CharSextet(s[1]) == Some(b);
    assert CharSextet(s[2]) == Some(c) && CharSextet(s[3]) == Some(z % 64);
    assert b / 16 == x % 4 && b % 16 == y / 16;
    assert c / 4 == y % 16 && c % 4 == z / 64;
  }

  lemma DecodeEncodeBlock(b: Bytes, last: bool)
    requires 1 <= |b| <= 3 && (|b| < 3 ==> last)
    ensures DecodeBlock(EncodeBlock(b), last) == Some(b)
  {
    if |b| == 1 {
      assert b == [b[0]];
      DecodeEncodeOne(b[0]);
    } else if |b| == 2 {
      assert b == [b[0], b[1]];
      DecodeEncodeTwo(b[0], b[1]);
    } else {
      assert b == [b[0], b[1], b[2]];
      DecodeEncodeThree(b[0], b[1], b[2], last);
    }
  }

  lemma DecodeOneBlock(s: string)
    requires |s| == 4
    ensures Decode(s) == DecodeBlock(s, true)
  {
    assert s[..4] == s && s[4..] == "";
    var block := DecodeBlock(s, true);
    if block.Some? {
      assert block.value + [] == block.value;
    }
  }

  /** Decoding undoes encoding. */
  lemma {:induction false} DecodeEncode(b: Bytes)
    ensures Decode(Encode(b)) == Some(b)
  {
    if 0 < |b| <= 3 {
      DecodeEncodeBlock(b, true);
      DecodeOneBlock(EncodeBlock(b));
    } else if |b| > 3 {
      DecodeEncode(b[3..]);
      DecodeEncodeBlock(b[..3], false);
      var s := Encode(b);
      assert s[..4] == EncodeBlock(b[..3]) && s[4..] == Encode(b[3..]);
      assert b == b[..3] + b[3..];
    }
  }
}
