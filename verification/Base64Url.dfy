/**
 The unpadded base64url of a login token's claims (crates/adapters/src/entire.rs,
 `decode_base64url`; sections 5 and 3.5 of RFC 4648).
 */
module Base64Url {
  import opened Collections
  import opened Wrappers

  type Byte = x: int | 0 <= x < 256
  type Digit = x: int | 0 <= x < 64

  // ----- letters -----

  function DigitOf(c: char): Option<Digit> {
    if 'A' <= c <= 'Z' then Some(c as int - 'A' as int)
    else if 'a' <= c <= 'z' then Some(c as int - 'a' as int + 26)
    else if '0' <= c <= '9' then Some(c as int - '0' as int + 52)
    else if c == '-' then Some(62)
    else if c == '_' then Some(63)
    else None
  }

  function Letter(d: Digit): (c: char)
    ensures DigitOf(c) == Some(d)
  {
    if d < 26 then (d + 'A' as int) as char
    else if d < 52 then (d - 26 + 'a' as int) as char
    else if d < 62 then (d - 52 + '0' as int) as char
    else if d == 62 then '-' else '_'
  }

  lemma {:induction false} LetterOfDigit(c: char)
    requires DigitOf(c).Some?
    ensures Letter(DigitOf(c).value) == c
  {}

  predicate AreDigits(s: string) {
    forall k :: 0 <= k < |s| ==> DigitOf(s[k]).Some?
  }

  function Digits(s: string): seq<Digit>
    requires AreDigits(s)
  {
    seq(|s|, k requires 0 <= k < |s| => DigitOf(s[k]).value)
  }

  function Letters(ds: seq<Digit>): (s: string)
    ensures AreDigits(s) && Digits(s) == ds
  {
    seq(|ds|, k requires 0 <= k < |ds| => Letter(ds[k]))
  }

  // ----- groups -----

  /** Three bytes become four digits; one or two left over become two or three. */
  function Split(bytes: seq<Byte>): seq<Digit> {
    if bytes == [] then []
    else if |bytes| == 1 then [bytes[0] / 4, bytes[0] % 4 * 16]
    else if |bytes| == 2 then [bytes[0] / 4, bytes[0] % 4 * 16 + bytes[1] / 16, bytes[1] % 16 * 4]
    else
      [bytes[0] / 4, bytes[0] % 4 * 16 + bytes[1] / 16, bytes[1] % 16 * 4 + bytes[2] / 64, bytes[2] % 64]
      + Split(bytes[3..])
  }

  /** No lone digit, and no bits left over. */
  predicate Whole(ds: seq<Digit>) {
    && |ds| % 4 != 1
    && (|ds| % 4 == 2 ==> ds[|ds| - 1] % 16 == 0)
    && (|ds| % 4 == 3 ==> ds[|ds| - 1] % 4 == 0)
  }

  function First(a: Digit, b: Digit): Byte { a * 4 + b / 16 }

  function Second(b: Digit, c: Digit): Byte { b % 16 * 16 + c / 4 }

  function Third(c: Digit, d: Digit): Byte { c % 4 * 64 + d }

  /** The bytes of whole groups, and of what follows them as far as it goes. */
  function Join(ds: seq<Digit>): seq<Byte> {
    if |ds| < 2 then []
    else if |ds| == 2 then [First(ds[0], ds[1])]
    else if |ds| == 3 then [First(ds[0], ds[1]), Second(ds[1], ds[2])]
    else [First(ds[0], ds[1]), Second(ds[1], ds[2]), Third(ds[2], ds[3])] + Join(ds[4..])
  }

  lemma {:induction false} BytesOfDigits(x: Byte, y: Byte, z: Byte)
    ensures First(x / 4, x % 4 * 16 + y / 16) == x
    ensures Second(x % 4 * 16 + y / 16, y % 16 * 4 + z / 64) == y
    ensures Third(y % 16 * 4 + z / 64, z % 64) == z
  {}

  lemma {:induction false} DigitsOfBytes(a: Digit, b: Digit, c: Digit, d: Digit)
    ensures First(a, b) / 4 == a
    ensures First(a, b) % 4 * 16 + Second(b, c) / 16 == b
    ensures Second(b, c) % 16 * 4 + Third(c, d) / 64 == c
    ensures Third(c, d) % 64 == d
  {}

  lemma {:induction false} SplitIsWhole(bytes: seq<Byte>)
    ensures Whole(Split(bytes))
  {
    if |bytes| >= 3 {
      SplitIsWhole(bytes[3..]);
      var rest := Split(bytes[3..]);
      assert rest != [] ==> Split(bytes)[|Split(bytes)| - 1] == rest[|rest| - 1];
    }
  }

  lemma {:induction false} JoinSplit(bytes: seq<Byte>)
    ensures Join(Split(bytes)) == bytes
  {
    if |bytes| == 1 {
      BytesOfDigits(bytes[0], 0, 0);
    } else if |bytes| == 2 {
      BytesOfDigits(bytes[0], bytes[1], 0);
    } else if |bytes| >= 3 {
      BytesOfDigits(bytes[0], bytes[1], bytes[2]);
      JoinSplit(bytes[3..]);
      assert Split(bytes)[4..] == Split(bytes[3..]);
    }
  }

  function FourDigits(x: Byte, y: Byte, z: Byte): seq<Digit> {
    [x / 4, x % 4 * 16 + y / 16, y % 16 * 4 + z / 64, z % 64]
  }

  lemma {:induction false} SplitOpens(a: Digit, b: Digit, c: Digit, d: Digit, rest: seq<Byte>)
    ensures Split([First(a, b), Second(b, c), Third(c, d)] + rest) == [a, b, c, d] + Split(rest)
  {
    DigitsOfBytes(a, b, c, d);
    var bytes := [First(a, b), Second(b, c), Third(c, d)] + rest;
    assert bytes[3..] == rest;
    assert Split(bytes) == FourDigits(bytes[0], bytes[1], bytes[2]) + Split(rest);
  }

  lemma {:induction false} SplitJoin(ds: seq<Digit>)
    requires Whole(ds)
    ensures Split(Join(ds)) == ds
  {
    if |ds| == 2 {
      DigitsOfBytes(ds[0], ds[1], 0, 0);
    } else if |ds| == 3 {
      DigitsOfBytes(ds[0], ds[1], ds[2], 0);
    } else if |ds| >= 4 {
      SplitJoin(ds[4..]);
      SplitOpens(ds[0], ds[1], ds[2], ds[3], Join(ds[4..]));
      assert ds == ds[..4] + ds[4..] && ds[..4] == [ds[0], ds[1], ds[2], ds[3]];
    }
  }

  // ----- texts -----

  function Encode(bytes: seq<Byte>): string {
    Letters(Split(bytes))
  }

  /** The strings that are the text of some bytes. */
  predicate Canonical(s: string) {
    AreDigits(s) && Whole(Digits(s))
  }

  function Decode(s: string): seq<Byte>
    requires Canonical(s)
  {
    Join(Digits(s))
  }

  /** Byte strings and canonical texts correspond one to one. */
  lemma {:induction false} DecodeEncode(bytes: seq<Byte>)
    ensures Canonical(Encode(bytes)) && Decode(Encode(bytes)) == bytes
  {
    SplitIsWhole(bytes);
    JoinSplit(bytes);
  }

  lemma {:induction false} EncodeDecode(s: string)
    requires Canonical(s)
    ensures Encode(Decode(s)) == s
  {
    SplitJoin(Digits(s));
    forall k | 0 <= k < |s| ensures Letters(Digits(s))[k] == s[k] {
      LetterOfDigit(s[k]);
    }
  }

  // ----- the standard's table and groups -----

  /** Table 2 of RFC 4648. */
  const UPPER: string := "ABCDEFGHIJKLMNOPQRSTUVWXYZ"
  const LOWER: string := "abcdefghijklmnopqrstuvwxyz"
  const OTHERS: string := "0123456789-_"

  function Alphabet(d: Digit): char {
    if d < 26 then UPPER[d] else if d < 52 then LOWER[d - 26] else OTHERS[d - 52]
  }

  lemma {:induction false} LettersExactly(d: Digit)
    ensures Letter(d) == Alphabet(d)
  {
    if d < 26 {
      UpperExactly(d);
    } else if d < 52 {
      LowerExactly(d - 26);
    }
  }

  lemma {:induction false} UpperExactly(d: nat)
    requires d < 26
    ensures UPPER[d] as int == 'A' as int + d
  {
  }

  lemma {:induction false} LowerExactly(d: nat)
    requires d < 26
    ensures LOWER[d] as int == 'a' as int + d
  {
  }

  lemma {:induction false} DigitsExactly(c: char, d: Digit)
    ensures DigitOf(c) == Some(d) <==> Alphabet(d) == c
  {
    LettersExactly(d);
    if DigitOf(c).Some? {
      LetterOfDigit(c);
    }
  }

  /** Digits or bytes, most significant first, as one number. */
  function Number(base: int, a: int, b: int, c: int, d: int): int {
    ((a * base + b) * base + c) * base + d
  }

  /** The `i`th group (section 4 of RFC 4648): four digits are the same number as three bytes. */
  lemma {:induction false} GroupExactly(bytes: seq<Byte>, i: nat)
    requires 3 * i + 3 <= |bytes|
    ensures var (ds, k, n) := (Split(bytes), 4 * i, 3 * i);
      && |ds| >= k + 4
      && Number(64, ds[k], ds[k + 1], ds[k + 2], ds[k + 3]) == Number(256, 0, bytes[n], bytes[n + 1], bytes[n + 2])
  {
    if i > 0 {
      GroupExactly(bytes[3..], i - 1);
    }
  }

  /** A shorter last group ends the digits, with zero bits at the bottom. */
  lemma {:induction false} LastGroupExactly(bytes: seq<Byte>)
    ensures var (ds, k, n, left) := (Split(bytes), |bytes| / 3 * 4, |bytes| / 3 * 3, |bytes| % 3);
      if left == 0 then |ds| == k
      else if left == 1 then |ds| == k + 2 && Number(64, 0, 0, ds[k], ds[k + 1]) == Number(16, 0, 0, bytes[n], 0)
      else
        && |ds| == k + 3
        && Number(64, 0, ds[k], ds[k + 1], ds[k + 2]) == 4 * Number(256, 0, 0, bytes[n], bytes[n + 1])
  {
    if |bytes| >= 3 {
      LastGroupExactly(bytes[3..]);
    }
  }

  // ----- the loop -----

  /** How many digits of the last group there are. */
  function Phase(ds: seq<Digit>): nat { |ds| % 4 }

  function Last(ds: seq<Digit>): Digit {
    if ds == [] then 0 else ds[|ds| - 1]
  }

  /** The byte that the next digit completes, if it completes one. */
  function Completed(phase: nat, last: Digit, d: Digit): seq<Byte> {
    match phase
    case 0 => []
    case 1 => [First(last, d)]
    case 2 => [Second(last, d)]
    case _ => [Third(last, d)]
  }

  function FirstGroup(ds: seq<Digit>): seq<Byte>
    requires |ds| >= 4
  {
    [First(ds[0], ds[1]), Second(ds[1], ds[2]), Third(ds[2], ds[3])]
  }

  lemma {:induction false} JoinOpens(ds: seq<Digit>, d: Digit)
    requires |ds| >= 4
    ensures Join(ds) == FirstGroup(ds) + Join(ds[4..])
    ensures Join(ds + [d]) == FirstGroup(ds) + Join(ds[4..] + [d])
  {
    assert (ds + [d])[4..] == ds[4..] + [d];
  }

  lemma {:induction false} JoinShort(ds: seq<Digit>)
    ensures |ds| < 2 ==> Join(ds) == []
    ensures |ds| == 2 ==> Join(ds) == [First(ds[0], ds[1])]
    ensures |ds| == 3 ==> Join(ds) == [First(ds[0], ds[1]), Second(ds[1], ds[2])]
  {}

  lemma {:induction false} JoinFour(ds: seq<Digit>)
    requires |ds| == 4
    ensures Join(ds) == FirstGroup(ds)
  {
    assert ds[4..] == [];
  }

  lemma {:induction false} JoinOne(ds: seq<Digit>, d: Digit)
    requires |ds| < 2
    ensures Join(ds + [d]) == Join(ds) + Completed(|ds|, Last(ds), d)
  {
    JoinShort(ds);
    JoinShort(ds + [d]);
  }

  lemma {:induction false} JoinTwo(ds: seq<Digit>, d: Digit)
    requires |ds| == 2
    ensures Join(ds + [d]) == Join(ds) + Completed(|ds|, Last(ds), d)
  {
    JoinShort(ds);
    JoinShort(ds + [d]);
  }

  lemma {:induction false} JoinThree(ds: seq<Digit>, d: Digit)
    requires |ds| == 3
    ensures Join(ds + [d]) == Join(ds) + Completed(|ds|, Last(ds), d)
  {
    JoinShort(ds);
    JoinFour(ds + [d]);
  }

  lemma {:induction false} JoinStarts(ds: seq<Digit>, d: Digit)
    requires |ds| < 4
    ensures Join(ds + [d]) == Join(ds) + Completed(|ds|, Last(ds), d)
  {
    if |ds| < 2 {
      JoinOne(ds, d);
    } else if |ds| == 2 {
      JoinTwo(ds, d);
    } else {
      JoinThree(ds, d);
    }
  }

  lemma {:induction false} JoinGrows(ds: seq<Digit>, d: Digit)
    ensures Join(ds + [d]) == Join(ds) + Completed(Phase(ds), Last(ds), d)
  {
    if |ds| < 4 {
      JoinStarts(ds, d);
    } else {
      JoinGrows(ds[4..], d);
      SamePhase(ds);
      JoinOpens(ds, d);
      Regroup(FirstGroup(ds), Join(ds[4..]), Completed(Phase(ds), Last(ds), d));
    }
  }

  lemma {:induction false} SamePhase(ds: seq<Digit>)
    requires |ds| >= 4
    ensures Phase(ds[4..]) == Phase(ds) && (Phase(ds) != 0 ==> Last(ds[4..]) == Last(ds))
    ensures forall d :: Completed(Phase(ds[4..]), Last(ds[4..]), d) == Completed(Phase(ds), Last(ds), d)
  {}

  /** The number of bits read but not put out yet, and those bits. */
  function Bits(phase: nat): nat {
    match phase
    case 0 => 0
    case 1 => 6
    case 2 => 4
    case _ => 2
  }

  function Rest(phase: nat, last: Digit): nat {
    match phase
    case 0 => 0
    case 1 => last
    case 2 => last % 16
    case _ => last % 4
  }

  predicate IsShift(bits: int) {
    bits == 0 || bits == 2 || bits == 4 || bits == 6
  }

  /** `value >> bits`. */
  function High(value: nat, bits: nat): nat
    requires IsShift(bits)
  {
    if bits == 0 then value else if bits == 2 then value / 4 else if bits == 4 then value / 16 else value / 64
  }

  /** `value & ((1 << bits) - 1)`. */
  function Low(value: nat, bits: nat): (low: nat)
    requires IsShift(bits)
    ensures low < 64
  {
    if bits == 0 then 0 else if bits == 2 then value % 4 else if bits == 4 then value % 16 else value % 64
  }

  lemma {:induction false} JoinedBits(last: Digit, d: Digit)
    ensures (last * 64 + d) / 16 == First(last, d) && (last * 64 + d) % 16 == d % 16
    ensures (last % 16 * 64 + d) / 4 == Second(last, d) && (last % 16 * 64 + d) % 4 == d % 4
    ensures last % 4 * 64 + d == Third(last, d)
  {}

  /** One more digit: a whole byte leaves at the top as soon as there is one. */
  lemma {:induction false} RestGrows(phase: nat, last: Digit, d: Digit)
    requires phase < 4
    ensures Rest(phase, last) < 64
    ensures var value, bits, next := Rest(phase, last) * 64 + d, Bits(phase) + 6, (phase + 1) % 4;
      if bits >= 8
      then
        && IsShift(bits - 8) && High(value, bits - 8) < 256
        && Completed(phase, last, d) == [High(value, bits - 8)]
        && Rest(next, d) == Low(value, bits - 8) && Bits(next) == bits - 8
      else Completed(phase, last, d) == [] && Rest(next, d) == value && Bits(next) == bits
  {
    JoinedBits(last, d);
    match phase {
      case 0 =>
      case 1 =>
      case 2 =>
      case 3 =>
    }
  }

  lemma {:induction false} WholeHasNoRest(ds: seq<Digit>)
    ensures Whole(ds) <==> Bits(Phase(ds)) != 6 && Rest(Phase(ds), Last(ds)) == 0
  {}

  /** What the loop holds: all complete bytes, and the bits after them. */
  ghost predicate Holds(ds: seq<Digit>, out: seq<Byte>, value: nat, bits: nat) {
    out == Join(ds) && bits == Bits(Phase(ds)) && value == Rest(Phase(ds), Last(ds))
  }

  lemma {:induction false} HoldsMore(ds: seq<Digit>, out: seq<Byte>, d: Digit, more: seq<Byte>, value: nat, bits: nat)
    requires out == Join(ds) && more == Completed(Phase(ds), Last(ds), d)
    requires bits == Bits((Phase(ds) + 1) % 4) && value == Rest((Phase(ds) + 1) % 4, d)
    ensures Holds(ds + [d], out + more, value, bits)
  {
    JoinGrows(ds, d);
    PhaseGrows(ds, d);
  }

  lemma {:induction false} PhaseGrows(ds: seq<Digit>, d: Digit)
    ensures Phase(ds + [d]) == (Phase(ds) + 1) % 4 && Last(ds + [d]) == d
  {}

  lemma {:induction false} DigitsGrow(s: string, n: nat)
    requires n < |s| && AreDigits(s[..n]) && DigitOf(s[n]).Some?
    ensures AreDigits(s[..n + 1]) && Digits(s[..n + 1]) == Digits(s[..n]) + [DigitOf(s[n]).value]
  {}

  /** Accepts exactly the canonical texts, and gives their bytes. */
  method DecodeLoop(s: string) returns (r: Result<seq<Byte>, ()>)
    ensures r == if Canonical(s) then Ok(Decode(s)) else Err(())
  {
    var out: seq<Byte> := [];
    var value: nat, bits: nat := 0, 0;
    for n := 0 to |s|
      invariant AreDigits(s[..n])
      invariant Holds(Digits(s[..n]), out, value, bits)
    {
      var digit := DigitOf(s[n]);
      if digit.None? {
        return Err(());
      }
      ghost var ds := Digits(s[..n]);
      DigitsGrow(s, n);
      RestGrows(Phase(ds), Last(ds), digit.value);
      assert value * 64 + digit.value < 0x1_0000; // fits the u32
      value := value * 64 + digit.value;
      bits := bits + 6;
      if bits >= 8 {
        bits := bits - 8;
        out := out + [High(value, bits)];
        value := Low(value, bits);
        HoldsMore(ds, Join(ds), digit.value, [out[|out| - 1]], value, bits);
      } else {
        HoldsMore(ds, out, digit.value, [], value, bits);
        assert out + [] == out;
      }
    }
    assert s[..|s|] == s;
    WholeHasNoRest(Digits(s));
    return if bits == 6 || value != 0 then Err(()) else Ok(out);
  }
}
