/**
 Unpadded base64 (sections 4 and 5 of RFC 4648) as the Go library reads and writes it: the decoder
 skips line breaks, ignores trailing bits and refuses a single leftover character.
 */
module Base64 {
  import opened Text
  import opened Wrappers

  datatype Alphabet = Std | Url

  type Sextet = n: nat | n < 64

  function Char(al: Alphabet, v: Sextet): Byte {
    if v < 26 then (v + 65) as char
    else if v < 52 then (v + 71) as char
    else if v < 62 then (v - 4) as char
    else if al.Std? then (if v == 62 then '+' else '/')
    else (if v == 62 then '-' else '_')
  }

  function Value(al: Alphabet, c: char): Option<Sextet> {
    if 'A' <= c <= 'Z' then Some(c as int - 65)
    else if 'a' <= c <= 'z' then Some(c as int - 71)
    else if '0' <= c <= '9' then Some(c as int + 4)
    else if c == (if al.Std? then '+' else '-') then Some(62)
    else if c == (if al.Std? then '/' else '_') then Some(63)
    else None
  }

  predicate InAlphabet(al: Alphabet, s: string) {
    forall i :: 0 <= i < |s| ==> Value(al, s[i]).Some?
  }

  /** The bits of the bytes, six at a time from the high end, the last group filled with zeros. */
  function Sextets(b: seq<Byte>): (r: seq<Sextet>)
    ensures |r| == (|b| * 8 + 5) / 6
  {
    if |b| == 0 then []
    else if |b| == 1 then [b[0] as int / 4, b[0] as int % 4 * 16]
    else if |b| == 2 then [b[0] as int / 4, b[0] as int % 4 * 16 + b[1] as int / 16, b[1] as int % 16 * 4]
    else
      [b[0] as int / 4, b[0] as int % 4 * 16 + b[1] as int / 16,
       b[1] as int % 16 * 4 + b[2] as int / 64, b[2] as int % 64]
      + Sextets(b[3..])
  }

  /** The bytes of whole groups; two or three leftover sextets give one or two bytes, one is an error. */
  function Bytes(v: seq<Sextet>): Option<seq<Byte>> {
    if |v| == 0 then Some([])
    else if |v| == 1 then None
    else
      var b0: Byte := (v[0] as int * 4 + v[1] as int / 16) as char;
      if |v| == 2 then Some([b0])
      else
        var b1: Byte := (v[1] as int % 16 * 16 + v[2] as int / 4) as char;
        if |v| == 3 then Some([b0, b1])
        else
          var b2: Byte := (v[2] as int % 4 * 64 + v[3] as int) as char;
          match Bytes(v[4..])
          case None => None
          case Some(rest) => Some([b0, b1, b2] + rest)
  }

  function Encode(al: Alphabet, b: seq<Byte>): (s: seq<Byte>)
    ensures |s| == (|b| * 8 + 5) / 6
  {
    var v := Sextets(b);
    seq(|v|, i requires 0 <= i < |v| => Char(al, v[i]))
  }

  predicate IsLineBreak(c: char) { c == '\n' || c == '\r' }

  function Unbroken(s: string): (r: string)
    ensures forall i :: 0 <= i < |r| ==> !IsLineBreak(r[i])
  {
    if s == "" then ""
    else if IsLineBreak(s[0]) then Unbroken(s[1..])
    else [s[0]] + Unbroken(s[1..])
  }

  function Decode(al: Alphabet, s: string): Option<seq<Byte>> {
    var t := Unbroken(s);
    if !InAlphabet(al, t) then None
    else Bytes(seq(|t|, i requires 0 <= i < |t| => Value(al, t[i]).value))
  }

  lemma ValueOfChar(al: Alphabet, v: Sextet)
    ensures Value(al, Char(al, v)) == Some(v) && !IsLineBreak(Char(al, v))
  {}

  lemma RegroupBits(x: nat, y: nat, z: nat)
    requires x < 256 && y < 256 && z < 256
    ensures x / 4 * 4 + (x % 4 * 16 + y / 16) / 16 == x
    ensures (x % 4 * 16 + y / 16) % 16 * 16 + (y % 16 * 4 + z / 64) / 4 == y
    ensures (y % 16 * 4 + z / 64) % 4 * 64 + z % 64 == z
  {}

  lemma BytesOfOne(x: Byte)
    ensures Bytes(Sextets([x])) == Some([x])
  {
    RegroupBits(x as int, 0, 0);
    assert Sextets([x]) == [x as int / 4, x as int % 4 * 16];
  }

  lemma BytesOfTwo(x: Byte, y: Byte)
    ensures Bytes(Sextets([x, y])) == Some([x, y])
  {
    RegroupBits(x as int, y as int, 0);
    assert Sextets([x, y]) == [x as int / 4, x as int % 4 * 16 + y as int / 16, y as int % 16 * 4];
  }

  lemma {:induction false} BytesOfSextets(b: seq<Byte>)
    ensures Bytes(Sextets(b)) == Some(b)
  {
    if |b| == 1 {
      BytesOfOne(b[0]);
      assert b == [b[0]];
    } else if |b| == 2 {
      BytesOfTwo(b[0], b[1]);
      assert b == [b[0], b[1]];
    } else if |b| > 2 {
      RegroupBits(b[0] as int, b[1] as int, b[2] as int);
      BytesOfSextets(b[3..]);
      assert Sextets(b)[4..] == Sextets(b[3..]);
      assert Bytes(Sextets(b)).value == [b[0], b[1], b[2]] + b[3..] == b;
    }
  }

  lemma {:induction false} UnbrokenIsWhole(s: string)
    requires forall i :: 0 <= i < |s| ==> !IsLineBreak(s[i])
    ensures Unbroken(s) == s
  {
    if s != "" {
      UnbrokenIsWhole(s[1..]);
      assert s == [s[0]] + s[1..];
    }
  }

  /** Every byte string survives the round trip, in either alphabet. */
  lemma DecodeUndoesEncode(al: Alphabet, b: seq<Byte>)
    ensures Decode(al, Encode(al, b)) == Some(b) && InAlphabet(al, Encode(al, b))
  {
    var v, s := Sextets(b), Encode(al, b);
    forall i | 0 <= i < |s| ensures Value(al, s[i]) == Some(v[i]) && !IsLineBreak(s[i]) { ValueOfChar(al, v[i]); }
    UnbrokenIsWhole(s);
    assert seq(|s|, i requires 0 <= i < |s| => Value(al, s[i]).value) == v;
    BytesOfSextets(b);
  }

  /** Two byte strings never share a text. */
  lemma EncodeIsInjective(al: Alphabet, a: seq<Byte>, b: seq<Byte>)
    requires Encode(al, a) == Encode(al, b)
    ensures a == b
  {
    DecodeUndoesEncode(al, a);
    DecodeUndoesEncode(al, b);
  }

  /** A character outside the alphabet, such as a separator, never occurs in a text. */
  lemma EncodeAvoids(al: Alphabet, b: seq<Byte>, c: char)
    requires Value(al, c).None?
    ensures c !in Encode(al, b)
  {
    DecodeUndoesEncode(al, b);
  }

  lemma {:induction false} BytesFailIff(v: seq<Sextet>)
    ensures Bytes(v).None? <==> |v| % 4 == 1
    decreases |v|
  {
    if |v| > 3 {
      BytesFailIff(v[4..]);
      GroupsFail(|v|);
      assert Bytes(v).None? <==> Bytes(v[4..]).None?;
    }
  }

  lemma GroupsFail(n: nat)
    requires n > 3
    ensures n % 4 == (n - 4) % 4
  {}

  /** What the decoder refuses: a foreign character, or one character left over after whole groups of four. */
  lemma DecodeFailsIff(al: Alphabet, s: string)
    ensures Decode(al, s).None? <==> !InAlphabet(al, Unbroken(s)) || |Unbroken(s)| % 4 == 1
  {
    var t := Unbroken(s);
    if InAlphabet(al, t) {
      BytesFailIff(seq(|t|, i requires 0 <= i < |t| => Value(al, t[i]).value));
    }
  }

  /** A test vector of section 10 of RFC 4648, and the two characters in which the alphabets differ. */
  lemma TestVectors(al: Alphabet)
    ensures Encode(al, "foo") == "Zm9v"
    ensures Encode(al, ['\U{FB}', '\U{FF}']) == (if al.Std? then "+/8" else "-_8")
  {
    var foo: seq<Byte> := "foo";
    assert foo[3..] == [] && Sextets(foo) == [25, 38, 61, 47];
    assert Sextets(['\U{FB}', '\U{FF}']) == [62, 63, 60];
  }
}
