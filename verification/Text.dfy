/** Texts as bytes, and which of them are UTF-8: the strings of the source, unlike its file names. */
module Text {
  import opened Wrappers

  type Byte = c: char | c as int < 256
  type Bytes = seq<Byte>

  predicate Trail(c: Byte) {
    0x80 <= c as int <= 0xBF
  }

  /** The length of the character that `s` starts with, or 0 if it starts with none (section 4 of RFC 3629). */
  function CharLength(s: Bytes): (n: nat)
    ensures n <= |s|
  {
    if s == [] then 0
    else
      var a := s[0] as int;
      if a < 0x80 then 1
      else if 0xC2 <= a <= 0xDF && |s| >= 2 && Trail(s[1]) then 2
      else if 0xE0 <= a <= 0xEF && |s| >= 3 && Trail(s[1]) && Trail(s[2])
        && (a == 0xE0 ==> s[1] as int >= 0xA0) && (a == 0xED ==> s[1] as int <= 0x9F) then 3
      else if 0xF0 <= a <= 0xF4 && |s| >= 4 && Trail(s[1]) && Trail(s[2]) && Trail(s[3])
        && (a == 0xF0 ==> s[1] as int >= 0x90) && (a == 0xF4 ==> s[1] as int <= 0x8F) then 4
      else 0
  }

  predicate Utf8(s: Bytes)
    decreases |s|
  {
    s == [] || (CharLength(s) > 0 && Utf8(s[CharLength(s)..]))
  }

  lemma {:induction false} LengthStays(s: Bytes, t: Bytes)
    requires CharLength(s) > 0
    ensures CharLength(s + t) == CharLength(s)
  {
    var j := s + t;
    assert j[0] == s[0];
    assert |s| >= 2 ==> j[1] == s[1];
    assert |s| >= 3 ==> j[2] == s[2];
    assert |s| >= 4 ==> j[3] == s[3];
  }

  lemma {:induction false} Utf8Joins(s: Bytes, t: Bytes)
    requires Utf8(s) && Utf8(t)
    ensures Utf8(s + t)
    decreases |s|
  {
    if s == [] {
      assert s + t == t;
    } else {
      var n := CharLength(s);
      LengthStays(s, t);
      Utf8Joins(s[n..], t);
      assert (s + t)[n..] == s[n..] + t;
    }
  }

  lemma {:induction false} AsciiIsUtf8(s: Bytes)
    requires forall k :: 0 <= k < |s| ==> s[k] as int < 0x80
    ensures Utf8(s)
    decreases |s|
  {
    if s != [] {
      assert CharLength(s) == 1;
      AsciiIsUtf8(s[1..]);
    }
  }

  // ----- against the characters -----

  /** A character's number; the surrogates are none. */
  type Scalar = c: nat | c < 0xD800 || 0xE000 <= c < 0x11_0000

  /** Section 3 of RFC 3629. */
  function Encoding(c: Scalar): Bytes {
    if c < 0x80 then [c as char]
    else if c < 0x800 then [(0xC0 + c / 64) as char, (0x80 + c % 64) as char]
    else if c < 0x1_0000 then [(0xE0 + c / 4096) as char, (0x80 + c / 64 % 64) as char, (0x80 + c % 64) as char]
    else
      [(0xF0 + c / 262_144) as char, (0x80 + c / 4096 % 64) as char]
      + [(0x80 + c / 64 % 64) as char, (0x80 + c % 64) as char]
  }

  function Spelled(cs: seq<Scalar>): Bytes {
    if cs == [] then [] else Encoding(cs[0]) + Spelled(cs[1..])
  }

  lemma {:induction false} Two(x: nat, y: nat)
    requires 2 <= x < 0x20 && y < 64
    ensures var c := x * 64 + y;
      c / 64 == x && c % 64 == y && Encoding(c) == [(0xC0 + x) as char, (0x80 + y) as char]
  {
  }

  lemma {:induction false} Three(x: nat, y: nat, z: nat)
    requires x < 0x10 && y < 64 && z < 64 && (x == 0 ==> y >= 0x20) && (x == 0xD ==> y < 0x20)
    ensures var c := (x * 64 + y) * 64 + z;
      && (c < 0xD800 || 0xE000 <= c < 0x1_0000)
      && Encoding(c) == [(0xE0 + x) as char, (0x80 + y) as char, (0x80 + z) as char]
  {
    var c := (x * 64 + y) * 64 + z;
    assert c / 64 == x * 64 + y && c % 64 == z && c / 4096 == x;
  }

  lemma {:induction false} Four(x: nat, y: nat, z: nat, w: nat)
    requires x < 5 && y < 64 && z < 64 && w < 64 && (x == 0 ==> y >= 0x10) && (x == 4 ==> y < 0x10)
    ensures var c := ((x * 64 + y) * 64 + z) * 64 + w;
      && 0x1_0000 <= c < 0x11_0000
      && Encoding(c) == [(0xF0 + x) as char, (0x80 + y) as char, (0x80 + z) as char, (0x80 + w) as char]
  {
    var c := ((x * 64 + y) * 64 + z) * 64 + w;
    assert c / 64 == (x * 64 + y) * 64 + z && c % 64 == w;
    assert c / 4096 == x * 64 + y && c / 262_144 == x;
  }

  lemma {:induction false} EncodingIsRead(c: Scalar, rest: Bytes)
    ensures CharLength(Encoding(c) + rest) == |Encoding(c)|
  {
    LeadIsRead(c);
    LengthStays(Encoding(c), rest);
  }

  lemma {:induction false} LeadIsRead(c: Scalar)
    ensures CharLength(Encoding(c)) == |Encoding(c)|
  {
    if 0x80 <= c < 0x800 {
      Two(c / 64, c % 64);
    } else if 0x800 <= c < 0x1_0000 {
      LeadOfThree(c);
    } else if 0x1_0000 <= c {
      LeadOfFour(c);
    }
  }

  lemma {:induction false} LeadOfThree(c: Scalar)
    requires 0x800 <= c < 0x1_0000
    ensures CharLength(Encoding(c)) == 3
  {
    var x, y, z := c / 4096, c / 64 % 64, c % 64;
    ThreeParts(c);
    assert x < 0x10 && (x == 0 ==> y >= 0x20) && (x == 0xD ==> y < 0x20);
    Three(x, y, z);
  }

  lemma {:induction false} ThreeParts(c: nat)
    ensures c == (c / 4096 * 64 + c / 64 % 64) * 64 + c % 64
  {
    assert c / 64 == c / 4096 * 64 + c / 64 % 64;
  }

  lemma {:induction false} LeadOfFour(c: Scalar)
    requires 0x1_0000 <= c
    ensures CharLength(Encoding(c)) == 4
  {
    var x, y, z, w := c / 262_144, c / 4096 % 64, c / 64 % 64, c % 64;
    FourParts(c);
    assert x < 5 && (x == 0 ==> y >= 0x10) && (x == 4 ==> y < 0x10);
    Four(x, y, z, w);
  }

  lemma {:induction false} FourParts(c: nat)
    ensures c == ((c / 262_144 * 64 + c / 4096 % 64) * 64 + c / 64 % 64) * 64 + c % 64
  {
    assert c / 64 == c / 4096 * 64 + c / 64 % 64;
    assert c / 4096 == c / 262_144 * 64 + c / 4096 % 64;
  }

  lemma {:induction false} ReadIsEncoding(s: Bytes) returns (c: Scalar)
    requires CharLength(s) > 0
    ensures Encoding(c) == s[..CharLength(s)]
  {
    var n, a := CharLength(s), s[0] as int;
    if n == 1 {
      c := a;
    } else {
      var y := s[1] as int - 0x80;
      if n == 2 {
        Two(a - 0xC0, y);
        c := (a - 0xC0) * 64 + y;
      } else {
        var z := s[2] as int - 0x80;
        if n == 3 {
          Three(a - 0xE0, y, z);
          c := ((a - 0xE0) * 64 + y) * 64 + z;
        } else {
          Four(a - 0xF0, y, z, s[3] as int - 0x80);
          c := (((a - 0xF0) * 64 + y) * 64 + z) * 64 + (s[3] as int - 0x80);
        }
      }
    }
  }

  /** The texts are the sequences of characters. */
  lemma {:induction false} Utf8Exactly(s: Bytes)
    ensures Utf8(s) <==> exists cs :: Spelled(cs) == s
  {
    if Utf8(s) {
      var cs := Characters(s);
      assert Spelled(cs) == s;
    }
    if cs :| Spelled(cs) == s {
      SpelledIsUtf8(cs);
    }
  }

  lemma {:induction false} Characters(s: Bytes) returns (cs: seq<Scalar>)
    requires Utf8(s)
    ensures Spelled(cs) == s
    decreases |s|
  {
    if s == [] {
      return [];
    }
    var n := CharLength(s);
    var c := ReadIsEncoding(s);
    var more := Characters(s[n..]);
    cs := [c] + more;
    assert cs[1..] == more && s == s[..n] + s[n..];
  }

  lemma {:induction false} SpelledIsUtf8(cs: seq<Scalar>)
    ensures Utf8(Spelled(cs))
  {
    if cs != [] {
      SpelledIsUtf8(cs[1..]);
      EncodingIsRead(cs[0], Spelled(cs[1..]));
      assert Spelled(cs)[|Encoding(cs[0])|..] == Spelled(cs[1..]);
    }
  }

  // ----- decimal numbers -----

  function DigitsValue(s: Bytes): Option<nat> {
    if s == [] then Some(0)
    else
      var front, c := DigitsValue(s[..|s| - 1]), s[|s| - 1];
      if front.Some? && '0' <= c <= '9' then Some(front.value * 10 + (c as int - '0' as int)) else None
  }

  function Decimal(n: nat): (s: Bytes)
    ensures s != []
  {
    if n < 10 then [(n + '0' as int) as char] else Decimal(n / 10) + [(n % 10 + '0' as int) as char]
  }

  function Pow10(k: nat): nat {
    if k == 0 then 1 else 10 * Pow10(k - 1)
  }

  lemma {:induction false} DecimalReads(n: nat)
    ensures DigitsValue(Decimal(n)) == Some(n)
  {
    var s := Decimal(n);
    if n >= 10 {
      DecimalReads(n / 10);
      assert s[..|s| - 1] == Decimal(n / 10);
    } else {
      assert s[..0] == [];
    }
  }

  /** Numbers are read from digits alone. */
  lemma {:induction false} DigitsAlone(s: Bytes)
    ensures DigitsValue(s).Some? <==> forall k :: 0 <= k < |s| ==> '0' <= s[k] <= '9'
  {
    if s != [] {
      var front := s[..|s| - 1];
      DigitsAlone(front);
      assert forall k :: 0 <= k < |front| ==> front[k] == s[k];
    }
  }

  /** By position: what stands before the last digits counts that many powers of ten more. */
  lemma {:induction false} DigitsByPlace(s: Bytes, t: Bytes)
    requires DigitsValue(s).Some? && DigitsValue(t).Some?
    ensures DigitsValue(s + t) == Some(DigitsValue(s).value * Pow10(|t|) + DigitsValue(t).value)
  {
    if t == [] {
      assert s + t == s;
    } else {
      var front := t[..|t| - 1];
      DigitsByPlace(s, front);
      assert (s + t)[..|s + t| - 1] == s + front;
      assert Pow10(|t|) == 10 * Pow10(|front|);
      OneMoreDigit(DigitsValue(s).value, Pow10(|front|), DigitsValue(front).value);
    }
  }

  lemma {:induction false} OneMoreDigit(v: nat, p: nat, rest: nat)
    ensures 10 * (v * p + rest) == v * (10 * p) + 10 * rest
  {
  }

  lemma {:induction false} DecimalIsShort(n: nat, k: nat)
    requires k > 0 && n < Pow10(k)
    ensures |Decimal(n)| <= k
  {
    if n >= 10 {
      assert k > 1 by {
        assert Pow10(0) == 1 && Pow10(1) == 10;
      }
      DecimalIsShort(n / 10, k - 1);
    }
  }

  lemma {:induction false} ValueIsSmall(s: Bytes)
    requires DigitsValue(s).Some?
    ensures DigitsValue(s).value < Pow10(|s|)
  {
    if s != [] {
      ValueIsSmall(s[..|s| - 1]);
    }
  }

  lemma {:induction false} Pow10Grows(j: nat, k: nat)
    requires j <= k
    ensures Pow10(j) <= Pow10(k)
  {
    if j < k {
      Pow10Grows(j, k - 1);
    }
  }
}
