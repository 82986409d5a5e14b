/** Which white space is trimmed: exactly the code points that have Unicode's White_Space property. */
module WhiteSpace {
  import opened Text
  import Utf8

  predicate IsWhite(v: int) {
    || 9 <= v <= 13 || v == 0x20 || v == 0x85 || v == 0xA0 || v == 0x1680 || 0x2000 <= v <= 0x200A
    || v == 0x2028 || v == 0x2029 || v == 0x202F || v == 0x205F || v == 0x3000
  }

  lemma TwoBytes(v: int)
    requires 0x80 <= v < 0x800
    ensures var q := Utf8.Encode(v);
      && |q| == 2 && '\U{C0}' <= q[0] <= '\U{DF}' && '\U{80}' <= q[1] <= '\U{BF}'
      && (IsSpace2(q[0], q[1]) <==> v == 0x85 || v == 0xA0)
  {
    var x, y := v / 64, v % 64;
    assert v == 64 * x + y;
  }

  lemma ThreeBytes(v: int)
    requires 0x800 <= v < 0x10000 && Utf8.ValidRune(v)
    ensures var q := Utf8.Encode(v);
      && |q| == 3 && '\U{E0}' <= q[0] <= '\U{EF}' && '\U{80}' <= q[1] <= '\U{BF}' && '\U{80}' <= q[2] <= '\U{BF}'
      && (IsSpace3(q[0], q[1], q[2]) <==> IsWhite(v))
  {
    var x, y, z := v / 4096, v / 64 % 64, v % 64;
    assert v == 4096 * x + 64 * y + z by {
      assert v == 64 * (v / 64) + z;
      assert v / 64 == 64 * (v / 4096) + y;
    }
  }

  lemma FourBytes(v: int)
    requires 0x10000 <= v <= 0x10FFFF
    ensures var q := Utf8.Encode(v);
      |q| == 4 && q[0] >= '\U{F0}' && '\U{80}' <= q[1] <= '\U{BF}' && '\U{80}' <= q[2] <= '\U{BF}' && '\U{80}' <= q[3] <= '\U{BF}'
  {
  }

  /** A text that starts with a code point starts with white space exactly when that is white, and trimming takes all its bytes. */
  lemma StartIff(v: int, rest: string)
    requires Utf8.ValidRune(v)
    ensures SpaceAtStart(Utf8.Encode(v) + rest) == if IsWhite(v) then |Utf8.Encode(v)| else 0
  {
    var s := Utf8.Encode(v) + rest;
    if v < 0x80 {
      assert s[0] == v as char;
    } else if v < 0x800 {
      TwoBytes(v);
      assert s[0] == Utf8.Encode(v)[0] && s[1] == Utf8.Encode(v)[1];
    } else if v < 0x10000 {
      ThreeBytes(v);
      assert s[0] == Utf8.Encode(v)[0] && s[1] == Utf8.Encode(v)[1] && s[2] == Utf8.Encode(v)[2];
    } else {
      FourBytes(v);
      assert s[0] == Utf8.Encode(v)[0];
    }
  }

  /** And a text that ends with a code point likewise, whatever comes before it. */
  lemma EndIff(before: string, v: int)
    requires Utf8.ValidRune(v)
    ensures SpaceAtEnd(before + Utf8.Encode(v)) == if IsWhite(v) then |Utf8.Encode(v)| else 0
  {
    var q := Utf8.Encode(v);
    var s := before + q;
    var n := |s|;
    if v < 0x80 {
      assert s[n - 1] == v as char;
    } else if v < 0x800 {
      TwoBytes(v);
      assert s[n - 1] == q[1] && s[n - 2] == q[0];
    } else if v < 0x10000 {
      ThreeBytes(v);
      assert s[n - 1] == q[2] && s[n - 2] == q[1] && s[n - 3] == q[0];
    } else {
      FourBytes(v);
      assert s[n - 1] == q[3] && s[n - 2] == q[2] && s[n - 3] == q[1];
    }
  }
}
