/**
 * The standard Base64 alphabet and padding of section 4 of RFC 4648, as
 * `get_audio_base64` uses it to put synthesised audio into a JSON response.
 * `Decode` is the strict decoder of the same section, the inverse `Encode`
 * is proved against.
 */
module Base64 {
  import opened Wrappers

  newtype byte = x: int | 0 <= x < 256

  /** A 6-bit value. */
  type sextet = x: int | 0 <= x < 64

  /** The character of a 6-bit value: A-Z, a-z, 0-9, '+', '/'. */
  function CharOf(v: sextet): (c: char)
    ensures c != '='
  {
    if v < 26 then ('A' as int + v) as char
    else if v < 52 then ('a' as int + (v - 26)) as char
    else if v < 62 then ('0' as int + (v - 52)) as char
    else if v == 62 then '+'
    else '/'
  }

  /** The 6-bit value of an alphabet character; `None` for anything else, padding included. */
  function IndexOf(c: char): (r: Option<sextet>)
    ensures r.Some? ==> CharOf(r.value) == c
  {
    if 'A' <= c <= 'Z' then Some(c as int - 'A' as int)
    else if 'a' <= c <= 'z' then Some(c as int - 'a' as int + 26)
    else if '0' <= c <= '9' then Some(c as int - '0' as int + 52)
    else if c == '+' then Some(62)
    else if c == '/' then Some(63)
    else None
  }

  /** `IndexOf` undoes `CharOf`: the alphabet has 64 distinct characters. */
  lemma {:induction false} IndexOfCharOf(v: sextet)
    ensures IndexOf(CharOf(v)) == Some(v)
  {
  }

  /** Characters that may appear in an encoding. */
  predicate InAlphabet(c: char)
  {
    IndexOf(c).Some? || c == '='
  }

  /** Three bytes as four characters. */
  function Block(a: byte, b: byte, c: byte): string
  {
    [CharOf(a as int / 4), CharOf(a as int % 4 * 16 + b as int / 16),
     CharOf(b as int % 16 * 4 + c as int / 64), CharOf(c as int % 64)]
  }

  /** `base64.b64encode(data).decode('utf-8')`: full groups, then one padded group for 1 or 2 bytes left over. */
  function Encode(data: seq<byte>): string
    decreases |data|
  {
    if |data| == 0 then []
    else if |data| == 1 then
      [CharOf(data[0] as int / 4), CharOf(data[0] as int % 4 * 16), '=', '=']
    else if |data| == 2 then
      [CharOf(data[0] as int / 4), CharOf(data[0] as int % 4 * 16 + data[1] as int / 16),
       CharOf(data[1] as int % 16 * 4), '=']
    else Block(data[0], data[1], data[2]) + Encode(data[3..])
  }

  /** Four alphabet values back to three bytes. */
  function Unblock(w: sextet, x: sextet, y: sextet, z: sextet): seq<byte>
  {
    [(w * 4 + x / 16) as byte, (x % 16 * 16 + y / 4) as byte, (y % 4 * 64 + z) as byte]
  }

  /**
   * The strict decoder: the length must be a multiple of four, every
   * character must be in the alphabet, and padding may only end the last group.
   */
  function Decode(s: string): (r: Option<seq<byte>>)
    decreases |s|
  {
    if |s| == 0 then Some([])
    else if |s| < 4 then None
    else
      var w, x, y, z := IndexOf(s[0]), IndexOf(s[1]), IndexOf(s[2]), IndexOf(s[3]);
      if w.None? || x.None? then None
      else if |s| == 4 && s[2] == '=' && s[3] == '=' then
        Some([(w.value * 4 + x.value / 16) as byte])
      else if |s| == 4 && y.Some? && s[3] == '=' then
        Some([(w.value * 4 + x.value / 16) as byte, (x.value % 16 * 16 + y.value / 4) as byte])
      else if y.None? || z.None? then None
      else
        match Decode(s[4..])
        case None => None
        case Some(rest) => Some(Unblock(w.value, x.value, y.value, z.value) + rest)
  }

  /** Splitting three bytes into four 6-bit values and joining them again gives the bytes back. */
  lemma {:induction false} UnblockBlock(a: byte, b: byte, c: byte)
    ensures Unblock(a as int / 4, a as int % 4 * 16 + b as int / 16,
                    b as int % 16 * 4 + c as int / 64, c as int % 64) == [a, b, c]
  {
    var x := a as int % 4 * 16 + b as int / 16;
    var y := b as int % 16 * 4 + c as int / 64;
    assert x / 16 == a as int % 4 && x % 16 == b as int / 16;
    assert y / 4 == b as int % 16 && y % 4 == c as int / 64;
  }

  /** The encoding is four characters per started group of three bytes. */
  lemma {:induction false} EncodeLength(data: seq<byte>)
    ensures |Encode(data)| == 4 * ((|data| + 2) / 3)
    decreases |data|
  {
    if |data| > 2 {
      EncodeLength(data[3..]);
      assert (|data| + 2) / 3 == (|data[3..]| + 2) / 3 + 1;
    }
  }

  /** Every character of the encoding is an alphabet character or padding, and padding only ends it. */
  lemma {:induction false} EncodeAlphabet(data: seq<byte>)
    ensures forall i :: 0 <= i < |Encode(data)| ==> InAlphabet(Encode(data)[i])
    ensures forall i :: 0 <= i < |Encode(data)| && Encode(data)[i] == '=' ==> i >= |Encode(data)| - 2
    decreases |data|
  {
    var e := Encode(data);
    if |data| > 2 {
      EncodeAlphabet(data[3..]);
      EncodeLength(data[3..]);
      var b := Block(data[0], data[1], data[2]);
      forall i | 0 <= i < |e| ensures InAlphabet(e[i]) {
        if i < 4 {
          IndexOfCharOf(data[0] as int / 4);
          IndexOfCharOf(data[0] as int % 4 * 16 + data[1] as int / 16);
          IndexOfCharOf(data[1] as int % 16 * 4 + data[2] as int / 64);
          IndexOfCharOf(data[2] as int % 64);
        } else {
          assert e[i] == Encode(data[3..])[i - 4];
        }
      }
      forall i | 0 <= i < |e| && e[i] == '=' ensures i >= |e| - 2 {
        if i >= 4 {
          assert e[i] == Encode(data[3..])[i - 4];
        }
      }
    } else if |data| == 2 {
      IndexOfCharOf(data[0] as int / 4);
      IndexOfCharOf(data[0] as int % 4 * 16 + data[1] as int / 16);
      IndexOfCharOf(data[1] as int % 16 * 4);
    } else if |data| == 1 {
      IndexOfCharOf(data[0] as int / 4);
      IndexOfCharOf(data[0] as int % 4 * 16);
    }
  }

  /** A full group decodes to its three bytes, followed by whatever the rest decodes to. */
  lemma {:induction false} DecodeBlock(a: byte, b: byte, c: byte, t: string)
    ensures Decode(Block(a, b, c) + t) ==
      match Decode(t)
      case None => None
      case Some(rest) => Some([a, b, c] + rest)
  {
    var s := Block(a, b, c) + t;
    var w := a as int / 4;
    var x := a as int % 4 * 16 + b as int / 16;
    var y := b as int % 16 * 4 + c as int / 64;
    var z := c as int % 64;
    IndexOfCharOf(w);
    IndexOfCharOf(x);
    IndexOfCharOf(y);
    IndexOfCharOf(z);
    UnblockBlock(a, b, c);
    assert s[0] == CharOf(w) && s[1] == CharOf(x) && s[2] == CharOf(y) && s[3] == CharOf(z);
    assert s[4..] == t;
  }

  /** One leftover byte decodes from its doubly padded group. */
  lemma {:induction false} DecodeOne(a: byte)
    ensures Decode(Encode([a])) == Some([a])
  {
    IndexOfCharOf(a as int / 4);
    IndexOfCharOf(a as int % 4 * 16);
  }

  /** Two leftover bytes decode from their singly padded group. */
  lemma {:induction false} DecodeTwo(a: byte, b: byte)
    ensures Decode(Encode([a, b])) == Some([a, b])
  {
    var x := a as int % 4 * 16 + b as int / 16;
    var y := b as int % 16 * 4;
    IndexOfCharOf(a as int / 4);
    IndexOfCharOf(x);
    IndexOfCharOf(y);
    assert x / 16 == a as int % 4 && x % 16 == b as int / 16;
    assert y / 4 == b as int % 16;
  }

  /** Decoding the encoding gives the bytes back. */
  lemma {:induction false} DecodeEncode(data: seq<byte>)
    ensures Decode(Encode(data)) == Some(data)
    decreases |data|, 1
  {
    if |data| == 1 {
      DecodeOne(data[0]);
      assert data == [data[0]];
    } else if |data| == 2 {
      DecodeTwo(data[0], data[1]);
      assert data == [data[0], data[1]];
    } else if |data| > 2 {
      DecodeEncodeGroups(data);
    }
  }

  /** The round trip for three bytes or more: the first group, then the rest by induction. */
  lemma {:induction false} DecodeEncodeGroups(data: seq<byte>)
    requires |data| > 2
    ensures Decode(Encode(data)) == Some(data)
    decreases |data|, 0
  {
    var rest := data[3..];
    DecodeEncode(rest);
    DecodeBlock(data[0], data[1], data[2], Encode(rest));
    assert data == [data[0], data[1], data[2]] + rest;
  }
}
