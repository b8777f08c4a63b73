/** The data strings of fragments: btoa over bytes, and atob back. */
module Base64 {
  import opened Collections

  type Byte = b: int | 0 <= b < 256
  type Bytes = seq<Byte>

  function Letter(v: nat): char
    requires v < 64
  {
    if v < 26 then (65 + v) as char
    else if v < 52 then (71 + v) as char
    else if v < 62 then (v - 4) as char
    else if v == 62 then '+' else '/'
  }

  function Value(c: char): Option<nat>
    ensures Value(c).Some? ==> Value(c).value < 64
  {
    if 'A' <= c <= 'Z' then Some(c as nat - 65)
    else if 'a' <= c <= 'z' then Some(c as nat - 71)
    else if '0' <= c <= '9' then Some(c as nat + 4)
    else if c == '+' then Some(62) else if c == '/' then Some(63) else None
  }

  /** btoa. */
  function Encode(bs: Bytes): (s: string)
    ensures |s| == (|bs| + 2) / 3 * 4
    decreases |bs|
  {
    if bs == [] then ""
    else if |bs| == 1 then [Letter(bs[0] / 4), Letter(bs[0] % 4 * 16), '=', '=']
    else if |bs| == 2 then
      [Letter(bs[0] / 4), Letter(bs[0] % 4 * 16 + bs[1] / 16), Letter(bs[1] % 16 * 4), '=']
    else
      [Letter(bs[0] / 4), Letter(bs[0] % 4 * 16 + bs[1] / 16), Letter(bs[1] % 16 * 4 + bs[2] / 64),
       Letter(bs[2] % 64)] + Encode(bs[3..])
  }

  /** atob. */
  function Decode(s: string): Option<Bytes>
    decreases |s|
  {
    if s == "" then Some([])
    else if |s| < 4 || Value(s[0]).None? || Value(s[1]).None? then None
    else
      var a, b := Value(s[0]).value, Value(s[1]).value;
      if s[2..] == "==" then Some([a * 4 + b / 16])
      else if Value(s[2]).None? then None
      else
        var c := Value(s[2]).value;
        if s[3..] == "=" then Some([a * 4 + b / 16, b % 16 * 16 + c / 4])
        else if Value(s[3]).None? then None
        else
          var more := Decode(s[4..]);
          if more.None? then None
          else Some([a * 4 + b / 16, b % 16 * 16 + c / 4, c % 4 * 64 + Value(s[3]).value] + more.value)
  }

  lemma LetterValue(v: nat)
    requires v < 64
    ensures Value(Letter(v)) == Some(v) && Letter(v) != '='
  {
  }

  lemma OneByte(a: Byte)
    ensures Decode(Encode([a])) == Some([a])
  {
    LetterValue(a / 4);
    LetterValue(a % 4 * 16);
    assert Encode([a])[2..] == "==";
  }

  lemma TwoBytes(a: Byte, b: Byte)
    ensures Decode(Encode([a, b])) == Some([a, b])
  {
    var s := Encode([a, b]);
    LetterValue(a / 4);
    LetterValue(a % 4 * 16 + b / 16);
    LetterValue(b % 16 * 4);
    assert s[2..][0] == s[2] && s[3..] == "=";
  }

  lemma Sextets(a: Byte, b: Byte, c: Byte)
    ensures a / 4 < 64 && a % 4 * 16 + b / 16 < 64 && b % 16 * 4 + c / 64 < 64
    ensures a / 4 * 4 + (a % 4 * 16 + b / 16) / 16 == a
    ensures (a % 4 * 16 + b / 16) % 16 * 16 + (b % 16 * 4 + c / 64) / 4 == b
    ensures (b % 16 * 4 + c / 64) % 4 * 64 + c % 64 == c
  {
  }

  lemma DecodeQuad(w: nat, x: nat, y: nat, z: nat, t: string, more: Bytes)
    requires w < 64 && x < 64 && y < 64 && z < 64 && Decode(t) == Some(more)
    ensures Decode([Letter(w), Letter(x), Letter(y), Letter(z)] + t)
      == Some([(w * 4 + x / 16) % 256, x % 16 * 16 + y / 4, y % 4 * 64 + z] + more)
  {
    LetterValue(w);
    LetterValue(x);
    LetterValue(y);
    LetterValue(z);
    hide Letter, Value;
    var s := [Letter(w), Letter(x), Letter(y), Letter(z)] + t;
    QuadSlices(Letter(w), Letter(x), Letter(y), Letter(z), t);
    hide Decode;
    DecodeStep(s, w, x, y, z, t, more);
  }

  lemma QuadSlices(w: char, x: char, y: char, z: char, t: string)
    ensures var s := [w, x, y, z] + t;
      s[2..][0] == y && s[3..][0] == z && s[4..] == t
  {
  }

  lemma DecodeStep(s: string, w: nat, x: nat, y: nat, z: nat, t: string, more: Bytes)
    requires w < 64 && x < 64 && y < 64 && z < 64 && Decode(t) == Some(more) && |s| >= 4
    requires Value(s[0]) == Some(w) && Value(s[1]) == Some(x) && Value(s[2]) == Some(y) && Value(s[3]) == Some(z)
    requires s[2] != '=' && s[3] != '=' && s[2..][0] == s[2] && s[3..][0] == s[3] && s[4..] == t
    ensures Decode(s) == Some([(w * 4 + x / 16) % 256, x % 16 * 16 + y / 4, y % 4 * 64 + z] + more)
  {
    hide Value;
  }

  lemma ThreeBytes(a: Byte, b: Byte, c: Byte, more: Bytes)
    requires Decode(Encode(more)) == Some(more)
    ensures Decode(Encode([a, b, c] + more)) == Some([a, b, c] + more)
  {
    hide Decode, Letter, Value;
    Sextets(a, b, c);
    assert ([a, b, c] + more)[3..] == more;
    DecodeQuad(a / 4, a % 4 * 16 + b / 16, b % 16 * 4 + c / 64, c % 64, Encode(more), more);
  }

  lemma Nothing()
    ensures Decode(Encode([])) == Some([])
  {
  }

  /** Every byte string is read back from its encoding. */
  lemma {:induction false} RoundTrip(bs: Bytes)
    ensures Decode(Encode(bs)) == Some(bs)
    decreases |bs|
  {
    hide Encode, Decode;
    if bs == [] {
      Nothing();
    } else if |bs| == 1 {
      OneByte(bs[0]);
      assert bs == [bs[0]];
    } else if |bs| == 2 {
      TwoBytes(bs[0], bs[1]);
      assert bs == [bs[0], bs[1]];
    } else {
      RoundTrip(bs[3..]);
      ThreeBytes(bs[0], bs[1], bs[2], bs[3..]);
      assert bs == [bs[0], bs[1], bs[2]] + bs[3..];
    }
  }
}
