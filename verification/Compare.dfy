/**
 Compare addresses (crates/adapters/src/github.rs and gitlab.rs): the percent
 coding of a URL path, the split of a range into its two refs, GitLab's two
 forms, and the address that reopens a compare. Texts are their UTF-8 bytes;
 the URL library has already split the address.
 */
module Compare {
  import opened Wrappers
  import opened Text

  // ----- percent coding -----

  predicate Unreserved(c: Byte) {
    'A' <= c <= 'Z' || 'a' <= c <= 'z' || '0' <= c <= '9' || c == '-' || c == '.' || c == '_' || c == '~' || c == '/'
  }

  function HexDigit(n: nat): Byte
    requires n < 16
  {
    if n < 10 then (n + '0' as int) as char else (n - 10 + 'A' as int) as char
  }

  function HexValue(c: Byte): Option<nat> {
    if '0' <= c <= '9' then Some(c as int - '0' as int)
    else if 'A' <= c <= 'F' then Some(c as int - 'A' as int + 10)
    else if 'a' <= c <= 'f' then Some(c as int - 'a' as int + 10)
    else None
  }

  /** Rust's `from_str_radix` also takes a sign before a single digit. */
  function HexByte(high: Byte, low: Byte): Option<Byte> {
    if HexValue(low).None? then None
    else if high == '+' then Some(Char(HexValue(low).value))
    else if HexValue(high).None? then None
    else Some(Char(HexValue(high).value * 16 + HexValue(low).value))
  }

  function Char(n: nat): Byte {
    (n % 256) as char
  }

  function EncodeByte(c: Byte): (e: Bytes)
    ensures 1 <= |e| <= 3
  {
    if Unreserved(c) then [c] else ['%', HexDigit(c as int / 16), HexDigit(c as int % 16)]
  }

  function Encoded(s: Bytes): Bytes {
    if s == [] then [] else Encoded(s[..|s| - 1]) + EncodeByte(s[|s| - 1])
  }

  function Decoded(s: Bytes): Option<Bytes> {
    if s == [] then Some([])
    else if s[0] != '%' then Prefixed(s[0], Decoded(s[1..]))
    else if |s| < 3 || HexByte(s[1], s[2]).None? then None
    else Prefixed(HexByte(s[1], s[2]).value, Decoded(s[3..]))
  }

  function Prefixed(c: Byte, rest: Option<Bytes>): Option<Bytes> {
    if rest.None? then None else Some([c] + rest.value)
  }

  lemma {:induction false} EncodedJoins(s: Bytes, t: Bytes)
    ensures Encoded(s + t) == Encoded(s) + Encoded(t)
  {
    if t == [] {
      assert s + t == s;
    } else {
      assert (s + t)[..|s + t| - 1] == s + t[..|t| - 1];
      EncodedJoins(s, t[..|t| - 1]);
    }
  }

  lemma {:induction false} HexDigitReads(n: nat)
    requires n < 16
    ensures HexValue(HexDigit(n)) == Some(n) && HexDigit(n) != '+'
  {
  }

  lemma {:induction false} HexByteReads(c: Byte)
    ensures HexByte(HexDigit(c as int / 16), HexDigit(c as int % 16)) == Some(c)
  {
    HexDigitReads(c as int / 16);
    HexDigitReads(c as int % 16);
  }

  lemma {:induction false} DecodesByte(c: Byte, rest: Bytes)
    ensures Decoded(EncodeByte(c) + rest) == Prefixed(c, Decoded(rest))
  {
    var s := EncodeByte(c) + rest;
    if Unreserved(c) {
      assert s[1..] == rest;
    } else {
      HexByteReads(c);
      assert s[3..] == rest;
    }
  }

  /** Decoding undoes encoding, for every text. */
  lemma {:induction false} DecodedEncoded(s: Bytes)
    ensures Decoded(Encoded(s)) == Some(s)
  {
    if s != [] {
      assert s == [s[0]] + s[1..];
      EncodedJoins([s[0]], s[1..]);
      assert Encoded([s[0]]) == EncodeByte(s[0]) by {
        assert [s[0]][..0] == [];
      }
      DecodesByte(s[0], Encoded(s[1..]));
      DecodedEncoded(s[1..]);
    }
  }

  method EncodePath(path: Bytes) returns (out: Bytes)
    ensures out == Encoded(path)
  {
    out := [];
    for n := 0 to |path|
      invariant out == Encoded(path[..n])
    {
      assert path[..n + 1][..n] == path[..n];
      var c := path[n];
      if Unreserved(c) {
        out := out + [c];
      } else {
        out := out + ['%'];
        out := out + [HexDigit(c as int / 16)];
        out := out + [HexDigit(c as int % 16)];
      }
      assert out == Encoded(path[..n]) + EncodeByte(c);
    }
    assert path[..|path|] == path;
  }

  function Appended(s: Bytes, rest: Option<Bytes>): Option<Bytes> {
    if rest.None? then None else Some(s + rest.value)
  }

  lemma {:induction false} AppendNone(rest: Option<Bytes>)
    ensures Appended([], rest) == rest
  {
    if rest.Some? {
      assert [] + rest.value == rest.value;
    }
  }

  lemma {:induction false} AppendOne(s: Bytes, c: Byte, rest: Option<Bytes>)
    ensures Appended(s, Prefixed(c, rest)) == Appended(s + [c], rest)
  {
    if rest.Some? {
      assert s + ([c] + rest.value) == s + [c] + rest.value;
    }
  }

  method DecodePath(s: Bytes) returns (r: Option<Bytes>)
    ensures r == Checked(Decoded(s))
  {
    var out: Bytes := [];
    var i := 0;
    assert s[0..] == s;
    AppendNone(Decoded(s));
    while i < |s|
      invariant i <= |s|
      invariant Decoded(s) == Appended(out, Decoded(s[i..]))
    {
      var rest := s[i..];
      if s[i] == '%' {
        var hex := if i + 3 <= |s| then HexByte(s[i + 1], s[i + 2]) else None;
        if hex.None? {
          return None;
        }
        assert rest[3..] == s[i + 3..];
        AppendOne(out, hex.value, Decoded(s[i + 3..]));
        out := out + [hex.value];
        i := i + 3;
      } else {
        assert rest[1..] == s[i + 1..];
        AppendOne(out, s[i], Decoded(s[i + 1..]));
        out := out + [s[i]];
        i := i + 1;
      }
    }
    assert s[i..] == [];
    assert out + [] == out;
    return if Utf8(out) then Some(out) else None;
  }

  function Checked(s: Option<Bytes>): Option<Bytes> {
    if s.Some? && Utf8(s.value) then s else None
  }

  // ----- ranges -----

  predicate OccursAt(s: Bytes, p: Bytes, i: nat) {
    i + |p| <= |s| && s[i..i + |p|] == p
  }

  predicate Contains(s: Bytes, p: Bytes) {
    exists i :: 0 <= i <= |s| && OccursAt(s, p, i)
  }

  function Find(s: Bytes, p: Bytes, start: nat): (at: Option<nat>)
    requires start <= |s|
    ensures at.Some? ==>
      && start <= at.value && OccursAt(s, p, at.value)
      && forall i :: start <= i < at.value ==> !OccursAt(s, p, i)
    ensures at.None? ==> forall i :: start <= i <= |s| ==> !OccursAt(s, p, i)
    decreases |s| - start
  {
    if OccursAt(s, p, start) then Some(start) else if start == |s| then None else Find(s, p, start + 1)
  }

  /** Rust's `split_once`. */
  function SplitOnce(s: Bytes, p: Bytes): Option<(Bytes, Bytes)> {
    var at := Find(s, p, 0);
    if at.None? then None else Some((s[..at.value], s[at.value + |p|..]))
  }

  datatype Refs = Refs(base: Bytes, head: Bytes, direct: bool)

  function Dots(direct: bool): Bytes {
    if direct then ".." else "..."
  }

  function SplitRange(range: Bytes): Option<Refs> {
    var three := SplitOnce(range, "...");
    if three.Some? then Some(Refs(three.value.0, three.value.1, false))
    else
      var two := SplitOnce(range, "..");
      if two.Some? then Some(Refs(two.value.0, two.value.1, true)) else None
  }

  function Joined(r: Refs): Bytes {
    r.base + Dots(r.direct) + r.head
  }

  /** A split only cuts: joining gives back the range. */
  lemma {:induction false} SplitJoins(range: Bytes)
    requires SplitRange(range).Some?
    ensures Joined(SplitRange(range).value) == range
  {
    var r := SplitRange(range).value;
    var at := |r.base|;
    assert range == range[..at] + range[at..at + |Dots(r.direct)|] + range[at + |Dots(r.direct)|..];
  }

  /** Where the first separator of a joined range can be. */
  predicate SplitsBack(r: Refs) {
    if r.direct
    then !Contains(r.base, "..") && !EndsWith(r.base, ".") && !StartsWith(r.head, ".") && !Contains(r.head, "...")
    else !Contains(r.base, "...") && !EndsWith(r.base, ".")
  }

  predicate StartsWith(s: Bytes, p: Bytes) {
    OccursAt(s, p, 0)
  }

  predicate EndsWith(s: Bytes, p: Bytes) {
    |p| <= |s| && OccursAt(s, p, |s| - |p|)
  }

  lemma {:induction false} OccursIn(s: Bytes, p: Bytes, i: nat)
    requires OccursAt(s, p, i)
    ensures Contains(s, p) && forall k :: 0 <= k < |p| ==> s[i + k] == p[k]
  {
    forall k | 0 <= k < |p| ensures s[i + k] == p[k] {
      assert s[i..i + |p|][k] == p[k];
    }
  }

  lemma {:induction false} OccursByLetters(s: Bytes, p: Bytes, i: nat)
    requires i + |p| <= |s| && forall k :: 0 <= k < |p| ==> s[i + k] == p[k]
    ensures OccursAt(s, p, i) && Contains(s, p)
  {
    assert s[i..i + |p|] == p;
    assert OccursAt(s, p, i);
  }

  lemma {:induction false} OneAt(s: Bytes, c: Byte, i: nat)
    ensures OccursAt(s, [c], i) <==> i < |s| && s[i] == c
  {
    if i < |s| {
      assert s[i..i + 1] == [s[i]];
    }
  }

  lemma {:induction false} TwoAt(s: Bytes, i: nat)
    ensures OccursAt(s, "..", i) <==> i + 2 <= |s| && s[i] == '.' && s[i + 1] == '.'
  {
    if i + 2 <= |s| {
      assert s[i..i + 2] == [s[i], s[i + 1]];
    }
  }

  lemma {:induction false} ThreeAt(s: Bytes, i: nat)
    ensures OccursAt(s, "...", i) <==> i + 3 <= |s| && s[i] == '.' && s[i + 1] == '.' && s[i + 2] == '.'
  {
    if i + 3 <= |s| {
      assert s[i..i + 3] == [s[i], s[i + 1], s[i + 2]];
    }
  }

  lemma {:induction false} FindIs(s: Bytes, p: Bytes, at: nat)
    requires OccursAt(s, p, at) && forall i :: 0 <= i < at ==> !OccursAt(s, p, i)
    ensures Find(s, p, 0) == Some(at)
  {
    OccursIn(s, p, at);
  }

  lemma {:induction false} JoinedLetters(r: Refs, k: nat)
    requires k < |Joined(r)|
    ensures var b, d := |r.base|, |Dots(r.direct)|;
      Joined(r)[k] == if k < b then r.base[k] else if k < b + d then '.' else r.head[k - b - d]
  {}

  /** Dots that occur in a joined range before its separator are in the base, or touch its end. */
  lemma {:induction false} EarlierDots(r: Refs, p: Bytes, i: nat)
    requires |p| > 0 && forall k :: 0 <= k < |p| ==> p[k] == '.'
    requires i < |r.base| && OccursAt(Joined(r), p, i)
    ensures Contains(r.base, p) || EndsWith(r.base, ".")
  {
    var s, b := Joined(r), |r.base|;
    OccursIn(s, p, i);
    if i + |p| <= b {
      forall k | 0 <= k < |p| ensures r.base[i + k] == p[k] {
        JoinedLetters(r, i + k);
      }
      OccursByLetters(r.base, p, i);
    } else {
      JoinedLetters(r, b - 1);
      assert s[i + (b - 1 - i)] == p[b - 1 - i];
      OccursByLetters(r.base, ".", b - 1);
    }
  }

  lemma {:induction false} ThreeDots(r: Refs, i: nat)
    requires r.direct && OccursAt(Joined(r), "...", i)
    ensures !SplitsBack(r)
  {
    var s, b := Joined(r), |r.base|;
    ThreeAt(s, i);
    JoinedLetters(r, i);
    JoinedLetters(r, i + 1);
    JoinedLetters(r, i + 2);
    if i + 1 < b {
      TwoAt(r.base, i);
      assert Contains(r.base, "..");
    } else if i < b {
      OneAt(r.base, '.', i);
      assert EndsWith(r.base, ".");
    } else if i >= b + 2 {
      ThreeAt(r.head, i - b - 2);
      assert Contains(r.head, "...");
    } else {
      JoinedLetters(r, b + 2);
      OneAt(r.head, '.', 0);
      assert StartsWith(r.head, ".");
    }
  }

  lemma {:induction false} SeparatorOccurs(r: Refs)
    ensures OccursAt(Joined(r), Dots(r.direct), |r.base|)
    ensures Joined(r)[..|r.base|] == r.base && Joined(r)[|r.base| + |Dots(r.direct)|..] == r.head
  {}

  lemma {:induction false} SplitsAtSeparator(r: Refs)
    requires SplitsBack(r)
    ensures SplitRange(Joined(r)) == Some(r)
  {
    var s, d := Joined(r), Dots(r.direct);
    SeparatorOccurs(r);
    forall i | 0 <= i < |r.base| && OccursAt(s, d, i) ensures false {
      EarlierDots(r, d, i);
    }
    FindIs(s, d, |r.base|);
    if r.direct {
      forall i | 0 <= i <= |s| && OccursAt(s, "...", i) ensures false {
        ThreeDots(r, i);
      }
      assert Find(s, "...", 0) == None;
    }
  }

  lemma {:induction false} SplitIsFirst(r: Refs)
    requires SplitRange(Joined(r)) == Some(r)
    ensures SplitsBack(r)
  {
    var s, b, d := Joined(r), |r.base|, Dots(r.direct);
    assert Find(s, d, 0) == Some(b);
    if EndsWith(r.base, ".") {
      LastDot(r);
    }
    if Contains(r.base, d) {
      BaseDots(r);
    }
    if r.direct {
      assert Find(s, "...", 0) == None;
      if StartsWith(r.head, ".") || Contains(r.head, "...") {
        HeadDots(r);
      }
    }
  }

  /** A dot before the separator makes three dots that start in the base. */
  lemma {:induction false} LastDot(r: Refs)
    requires EndsWith(r.base, ".")
    ensures r.base != [] && OccursAt(Joined(r), "...", |r.base| - 1)
  {
    var b := |r.base|;
    OneAt(r.base, '.', b - 1);
    JoinedLetters(r, b - 1);
    JoinedLetters(r, b);
    JoinedLetters(r, b + 1);
    ThreeAt(Joined(r), b - 1);
  }

  lemma {:induction false} BaseDots(r: Refs)
    requires Contains(r.base, Dots(r.direct))
    ensures exists i :: 0 <= i < |r.base| && OccursAt(Joined(r), Dots(r.direct), i)
  {
    var d := Dots(r.direct);
    var i :| 0 <= i <= |r.base| && OccursAt(r.base, d, i);
    OccursIn(r.base, d, i);
    forall k | 0 <= k < |d| ensures Joined(r)[i + k] == d[k] {
      JoinedLetters(r, i + k);
    }
    OccursByLetters(Joined(r), d, i);
  }

  lemma {:induction false} HeadDots(r: Refs)
    requires r.direct && (StartsWith(r.head, ".") || Contains(r.head, "..."))
    ensures Contains(Joined(r), "...")
  {
    if StartsWith(r.head, ".") {
      HeadStarts(r);
    } else {
      var i :| 0 <= i <= |r.head| && OccursAt(r.head, "...", i);
      HeadHolds(r, i);
    }
  }

  lemma {:induction false} HeadStarts(r: Refs)
    requires r.direct && StartsWith(r.head, ".")
    ensures Contains(Joined(r), "...")
  {
    var b := |r.base|;
    OneAt(r.head, '.', 0);
    JoinedLetters(r, b);
    JoinedLetters(r, b + 1);
    JoinedLetters(r, b + 2);
    ThreeAt(Joined(r), b);
  }

  lemma {:induction false} HeadHolds(r: Refs, i: nat)
    requires r.direct && OccursAt(r.head, "...", i)
    ensures Contains(Joined(r), "...")
  {
    var b := |r.base|;
    ThreeAt(r.head, i);
    JoinedLetters(r, b + 2 + i);
    JoinedLetters(r, b + 3 + i);
    JoinedLetters(r, b + 4 + i);
    ThreeAt(Joined(r), b + 2 + i);
  }

  /** A joined range splits back exactly in these cases. */
  lemma {:induction false} SplitsBackExactly(r: Refs)
    ensures SplitRange(Joined(r)) == Some(r) <==> SplitsBack(r)
  {
    if SplitsBack(r) {
      SplitsAtSeparator(r);
    } else if SplitRange(Joined(r)) == Some(r) {
      SplitIsFirst(r);
    }
  }

  // ----- refs -----

  predicate Special(c: Byte) {
    c <= ' ' || c as int == 0x7F || c == '~' || c == '^' || c == ':' || c == '?' || c == '*' || c == '[' || c == '\\'
  }

  /** The rules of `git check-ref-format`. */
  predicate RefName(s: Bytes) {
    && s != [] && |s| <= 255
    && !StartsWith(s, "-") && !StartsWith(s, "/") && !StartsWith(s, ".")
    && !EndsWith(s, "/") && !EndsWith(s, ".") && !EndsWith(s, ".lock")
    && !Contains(s, "..") && !Contains(s, "//") && !Contains(s, "@{") && !Contains(s, "/.")
    && forall k :: 0 <= k < |s| ==> !Special(s[k])
  }

  predicate Identifier(s: Bytes) {
    && s != [] && s != "." && s != ".." && |s| <= 100
    && forall k :: 0 <= k < |s| ==>
      ('A' <= s[k] <= 'Z' || 'a' <= s[k] <= 'z' || '0' <= s[k] <= '9' || s[k] == '-' || s[k] == '_' || s[k] == '.')
  }

  /** GitHub's `owner:ref` names a fork; without a colon the whole side is the ref. */
  predicate Side(side: Bytes) {
    var parts := SplitOnce(side, ":");
    RefName(if parts.None? then side else if Identifier(parts.value.0) then parts.value.1 else [])
  }

  lemma {:induction false} ThreeHoldTwo(s: Bytes)
    requires Contains(s, "...")
    ensures Contains(s, "..")
  {
    var i :| 0 <= i <= |s| && OccursAt(s, "...", i);
    ThreeAt(s, i);
    TwoAt(s, i);
  }

  /** Two ref names and either separator always split back: `check-ref-format` makes the split unique. */
  lemma {:induction false} RefNamesSplitBack(r: Refs)
    requires RefName(r.base) && RefName(r.head)
    ensures SplitRange(Joined(r)) == Some(r)
  {
    if Contains(r.base, "...") {
      ThreeHoldTwo(r.base);
    }
    if Contains(r.head, "...") {
      ThreeHoldTwo(r.head);
    }
    SplitsBackExactly(r);
  }

  /** Sides with an owner may not: "a" and ".o:b" are accepted one by one, but joined they mean another compare. */
  lemma {:induction false} SidesMayNotSplitBack(base: Bytes, head: Bytes)
    requires |base| == 1 && Letter(base[0])
    requires |head| == 4 && head[0] == '.' && Letter(head[1]) && head[2] == ':' && Letter(head[3])
    ensures Side(base) && Side(head)
    ensures SplitRange(Joined(Refs(base, head, true))) == Some(Refs(base, head[1..], false))
  {
    PlainSide(base);
    OwnedSide(head);
    ThreeDotsWin(base, head);
  }

  lemma {:induction false} ThreeDotsWin(base: Bytes, head: Bytes)
    requires |base| == 1 && Letter(base[0]) && head != [] && head[0] == '.'
    ensures SplitRange(Joined(Refs(base, head, true))) == Some(Refs(base, head[1..], false))
  {
    var s := Joined(Refs(base, head, true));
    ThreeAt(s, 0);
    ThreeAt(s, 1);
    FindIs(s, "...", 1);
    assert s[..1] == base && s[4..] == head[1..];
  }

  predicate Letter(c: Byte) {
    'a' <= c <= 'z'
  }

  lemma {:induction false} PlainSide(s: Bytes)
    requires |s| == 1 && Letter(s[0])
    ensures Side(s)
  {
    OneAt(s, ':', 0);
    assert Find(s, [':'], 0) == None;
    PlainName(s);
  }

  lemma {:induction false} OwnedSide(head: Bytes)
    requires |head| == 4 && head[0] == '.' && Letter(head[1]) && head[2] == ':' && Letter(head[3])
    ensures Side(head)
  {
    OneAt(head, ':', 0);
    OneAt(head, ':', 1);
    OneAt(head, ':', 2);
    FindIs(head, [':'], 2);
    PlainName(head[3..]);
  }

  lemma {:induction false} PlainName(s: Bytes)
    requires |s| == 1 && Letter(s[0])
    ensures RefName(s)
  {
    assert forall p: Bytes, i: nat :: |p| >= 2 ==> !OccursAt(s, p, i);
    assert !StartsWith(s, "-") && !StartsWith(s, "/") && !StartsWith(s, ".");
  }

  // ----- GitHub -----

  /** What `CompareAddress::parse` makes of the last part of the path. */
  function GithubRefs(part: Bytes): Option<Refs> {
    var range := Checked(Decoded(part));
    if range.None? then None
    else
      var refs := SplitRange(range.value);
      if refs.Some? && Side(refs.value.base) && Side(refs.value.head) then refs else None
  }

  /** The last part of the address that `reopen_address` prints. */
  function Printed(r: Refs): Bytes {
    Encoded(r.base) + Dots(r.direct) + Encoded(r.head)
  }

  lemma {:induction false} PrintedIsEncoded(r: Refs)
    ensures Printed(r) == Encoded(Joined(r)) && Decoded(Printed(r)) == Some(Joined(r))
  {
    EncodedJoins(r.base + Dots(r.direct), r.head);
    EncodedJoins(r.base, Dots(r.direct));
    DotsStay(r.direct);
    DecodedEncoded(Joined(r));
  }

  lemma {:induction false} DotsStay(direct: bool)
    ensures Encoded(Dots(direct)) == Dots(direct)
  {
    var one: Bytes := ".";
    var two: Bytes := "..";
    var three: Bytes := "...";
    assert one[..0] == [] && two[..1] == one && three[..2] == two;
    assert Encoded([]) == [] && EncodeByte('.') == ".";
    assert Encoded(one) == one;
    assert Encoded(two) == one + one == two;
    assert Encoded(three) == two + one == three;
  }

  /** Reopening a compare that was accepted opens the same compare. */
  lemma {:induction false} GithubReopens(part: Bytes)
    requires GithubRefs(part).Some?
    ensures GithubRefs(Printed(GithubRefs(part).value)) == GithubRefs(part)
  {
    var r := GithubRefs(part).value;
    SplitJoins(Decoded(part).value);
    PrintedIsEncoded(r);
  }

  lemma {:induction false} DotEnd(s: Bytes)
    ensures EndsWith(s, ".") <==> s != [] && s[|s| - 1] == '.'
  {
    if s != [] {
      assert s[|s| - 1..|s|] == [s[|s| - 1]];
    }
  }

  lemma {:induction false} SideHasNoDotEnd(side: Bytes)
    requires Side(side)
    ensures !EndsWith(side, ".")
  {
    DotEnd(side);
    var parts := SplitOnce(side, ":");
    if parts.Some? {
      DotEnd(parts.value.1);
    }
  }

  /** For any two sides that are accepted alone, the printed compare opens as itself exactly if it splits back. */
  lemma {:induction false} GithubReopensExactly(r: Refs)
    requires Side(r.base) && Side(r.head) && Utf8(r.base) && Utf8(r.head)
    ensures GithubRefs(Printed(r)) == Some(r) <==> SplitsBack(r)
  {
    PrintedIsEncoded(r);
    JoinedIsUtf8(r);
    SideHasNoDotEnd(r.base);
    SplitsBackExactly(r);
    ReadsRange(Printed(r), Joined(r));
  }

  lemma {:induction false} ReadsRange(part: Bytes, range: Bytes)
    requires Decoded(part) == Some(range) && Utf8(range)
    ensures GithubRefs(part) ==
      (var refs := SplitRange(range);
        if refs.Some? && Side(refs.value.base) && Side(refs.value.head) then refs else None)
  {}

  lemma {:induction false} JoinedIsUtf8(r: Refs)
    requires Utf8(r.base) && Utf8(r.head)
    ensures Utf8(Joined(r))
  {
    AsciiIsUtf8(Dots(r.direct));
    Utf8Joins(r.base, Dots(r.direct));
    Utf8Joins(r.base + Dots(r.direct), r.head);
  }

  // ----- GitLab -----

  datatype Failure = BadPath | BadQuery | Mixed | Disagrees | Missing | BadRef

  /** A query parameter, decoded by the URL library. */
  datatype Pair = Pair(key: Bytes, value: Bytes)

  datatype Query = Query(from: Option<Bytes>, target: Option<Bytes>, straight: Option<bool>, project: Option<nat>)

  const EMPTY := Query(None, None, None, None)

  /** Rust's `parse::<u64>`, which takes a plus sign. */
  function U64(s: Bytes): Option<nat> {
    var digits := if s != [] && s[0] == '+' then s[1..] else s;
    var n := DigitsValue(digits);
    if digits != [] && n.Some? && n.value < 0x1_0000_0000_0000_0000 then n else None
  }

  function WithProject(q: Query, value: Bytes): Result<Query, Failure> {
    if U64(value).Some? then Ok(q.(project := U64(value))) else Err(BadQuery)
  }

  /** One parameter beside refs in the path. */
  function PathPair(q: Query, p: Pair): Result<Query, Failure> {
    if p.key == "from_project_id" then WithProject(q, p.value)
    else if p.key == "straight" then Ok(q.(straight := Some(p.value == "true")))
    else Err(Mixed)
  }

  /** One parameter of the query form. */
  function QueryPair(q: Query, p: Pair): Result<Query, Failure> {
    if p.key == "from" then Ok(q.(from := Some(p.value)))
    else if p.key == "to" then Ok(q.(target := Some(p.value)))
    else if p.key == "from_project_id" then WithProject(q, p.value)
    else if p.key == "straight" then
      if p.value == "true" then Ok(q.(straight := Some(true)))
      else if p.value == "false" then Ok(q.(straight := Some(false)))
      else Err(BadQuery)
    else Err(BadQuery)
  }

  function ReadPair(inPath: bool, q: Query, p: Pair): Result<Query, Failure> {
    if inPath then PathPair(q, p) else QueryPair(q, p)
  }

  function ReadPairs(inPath: bool, pairs: seq<Pair>): Result<Query, Failure> {
    if pairs == [] then Ok(EMPTY)
    else
      var q := ReadPairs(inPath, pairs[..|pairs| - 1]);
      if q.Err? then q else ReadPair(inPath, q.value, pairs[|pairs| - 1])
  }

  datatype Opened = Opened(refs: Refs, project: Option<nat>)

  function Accepted(refs: Refs, project: Option<nat>): Result<Opened, Failure> {
    if RefName(refs.base) && RefName(refs.head) then Ok(Opened(refs, project)) else Err(BadRef)
  }

  function PathForm(tail: Bytes, q: Query): Result<Opened, Failure> {
    var range := Checked(Decoded(tail));
    if range.None? || SplitRange(range.value).None? then Err(BadPath)
    else
      var refs := SplitRange(range.value).value;
      if q.straight.Some? && q.straight.value != refs.direct then Err(Disagrees)
      else Accepted(refs, q.project)
  }

  function QueryForm(q: Query): Result<Opened, Failure> {
    if q.from.None? || q.target.None? then Err(Missing)
    else Accepted(Refs(q.from.value, q.target.value, q.straight == Some(true)), q.project)
  }

  /** What `GitlabCompare::parse` makes of the part after `/-/compare` and of the query. */
  function GitlabOpened(tail: Option<Bytes>, pairs: seq<Pair>): Result<Opened, Failure> {
    var q := ReadPairs(tail.Some?, pairs);
    if q.Err? then Err(q.error)
    else if tail.Some? then PathForm(tail.value, q.value)
    else QueryForm(q.value)
  }

  /** The loops over the query. */
  method ParseGitlab(tail: Option<Bytes>, pairs: seq<Pair>) returns (r: Result<Opened, Failure>)
    ensures r == GitlabOpened(tail, pairs)
    ensures forall o :: r == Ok(o) <==> Opens(tail, pairs, o)
  {
    OpenedExactly(tail, pairs);
    var from, target, straight, project := None, None, None, None;
    for n := 0 to |pairs|
      invariant ReadPairs(tail.Some?, pairs[..n]) == Ok(Query(from, target, straight, project))
    {
      var p := pairs[n];
      MorePairs(tail.Some?, pairs, n);
      if p.key == "from_project_id" {
        var id := U64(p.value);
        if id.None? {
          return Err(BadQuery);
        }
        project := id;
      } else if tail.Some? {
        if p.key != "straight" {
          return Err(Mixed);
        }
        straight := Some(p.value == "true");
      } else if p.key == "from" {
        from := Some(p.value);
      } else if p.key == "to" {
        target := Some(p.value);
      } else if p.key == "straight" {
        if p.value == "true" {
          straight := Some(true);
        } else if p.value == "false" {
          straight := Some(false);
        } else {
          return Err(BadQuery);
        }
      } else {
        return Err(BadQuery);
      }
    }
    assert pairs[..|pairs|] == pairs;
    var q := Query(from, target, straight, project);
    return if tail.Some? then PathForm(tail.value, q) else QueryForm(q);
  }

  /** A parameter that is refused is refused whatever follows. */
  lemma {:induction false} RefusedStays(inPath: bool, pairs: seq<Pair>, n: nat)
    requires n <= |pairs| && ReadPairs(inPath, pairs[..n]).Err?
    ensures ReadPairs(inPath, pairs) == ReadPairs(inPath, pairs[..n])
  {
    if n == |pairs| {
      assert pairs[..n] == pairs;
    } else {
      assert pairs[..|pairs| - 1][..n] == pairs[..n];
      RefusedStays(inPath, pairs[..|pairs| - 1], n);
    }
  }

  lemma {:induction false} MorePairs(inPath: bool, pairs: seq<Pair>, n: nat)
    requires n < |pairs| && ReadPairs(inPath, pairs[..n]).Ok?
    ensures ReadPairs(inPath, pairs[..n + 1]) == ReadPair(inPath, ReadPairs(inPath, pairs[..n]).value, pairs[n])
    ensures ReadPairs(inPath, pairs[..n + 1]).Err? ==> ReadPairs(inPath, pairs) == ReadPairs(inPath, pairs[..n + 1])
  {
    assert pairs[..n + 1][..n] == pairs[..n];
    if ReadPairs(inPath, pairs[..n + 1]).Err? {
      RefusedStays(inPath, pairs, n + 1);
    }
  }

  predicate AllUtf8(pairs: seq<Pair>) {
    forall k :: 0 <= k < |pairs| ==> Utf8(pairs[k].value)
  }

  lemma {:induction false} QueryIsUtf8(inPath: bool, pairs: seq<Pair>)
    requires AllUtf8(pairs) && ReadPairs(inPath, pairs).Ok?
    ensures var q := ReadPairs(inPath, pairs).value;
      (q.from.Some? ==> Utf8(q.from.value)) && (q.target.Some? ==> Utf8(q.target.value))
  {
    if pairs != [] {
      QueryIsUtf8(inPath, pairs[..|pairs| - 1]);
    }
  }

  /** Reopening a compare from either form opens the same refs, from the path. */
  lemma {:induction false} GitlabReopens(tail: Option<Bytes>, pairs: seq<Pair>)
    requires GitlabOpened(tail, pairs).Ok? && AllUtf8(pairs)
    ensures var refs := GitlabOpened(tail, pairs).value.refs;
      GitlabOpened(Some(Printed(refs)), []) == Ok(Opened(refs, None))
  {
    var refs := GitlabOpened(tail, pairs).value.refs;
    PrintedIsEncoded(refs);
    RefNamesSplitBack(refs);
    if tail.Some? {
      SplitJoins(Decoded(tail.value).value);
    } else {
      QueryIsUtf8(false, pairs);
      JoinedIsUtf8(refs);
    }
  }

  // ----- what is accepted, letter by letter and parameter by parameter -----

  /** A byte that a URL path may show as it is. */
  predicate StaysAsItIs(c: Byte) {
    || 'a' <= c <= 'z' || 'A' <= c <= 'Z' || '0' <= c <= '9'
    || c == '-' || c == '.' || c == '_' || c == '~' || c == '/'
  }

  const HEX: Bytes := "0123456789ABCDEF"
  const LOWER_HEX: Bytes := "0123456789abcdef"

  lemma {:induction false} HexExactly(n: nat)
    requires n < 16
    ensures HexDigit(n) == HEX[n]
    ensures HexValue(HEX[n]) == Some(n) && HexValue(LOWER_HEX[n]) == Some(n)
  {
  }

  /** A byte is printed as itself or as two upper-case hexadecimal digits. */
  lemma {:induction false} EncodedExactly(c: Byte)
    ensures EncodeByte(c) == if StaysAsItIs(c) then [c] else ['%', HEX[c as int / 16], HEX[c as int % 16]]
  {
    HexExactly(c as int / 16);
    HexExactly(c as int % 16);
  }

  /** Digits of either case are read; so is a plus sign before one digit. */
  lemma {:induction false} HexByteExactly(high: nat, low: nat)
    requires high < 16 && low < 16
    ensures HexByte(HEX[high], HEX[low]) == Some((16 * high + low) as char)
    ensures HexByte(LOWER_HEX[high], LOWER_HEX[low]) == Some((16 * high + low) as char)
    ensures HexByte('+', HEX[low]) == Some(low as char)
  {
    HexExactly(high);
    HexExactly(low);
    NoPlus(high);
    HexByteOf(HEX[high], HEX[low], high, low);
    HexByteOf(LOWER_HEX[high], LOWER_HEX[low], high, low);
  }

  lemma {:induction false} HexByteOf(h: Byte, l: Byte, high: nat, low: nat)
    requires high < 16 && low < 16 && HexValue(h) == Some(high) && HexValue(l) == Some(low) && h != '+'
    ensures HexByte(h, l) == Some((16 * high + low) as char)
  {
  }

  lemma {:induction false} NoPlus(n: nat)
    requires n < 16
    ensures HEX[n] != '+' && LOWER_HEX[n] != '+'
  {
  }

  predicate IsHex(c: Byte, n: nat) {
    n < 16 && (c == HEX[n] || c == LOWER_HEX[n])
  }

  lemma {:induction false} HexValueExactly(c: Byte, n: nat)
    ensures HexValue(c) == Some(n) <==> IsHex(c, n)
  {
    if n < 16 {
      HexExactly(n);
    }
    if HexValue(c) == Some(n) {
      assert n < 16;
      if n >= 10 && c >= 'a' {
        LowerHex(c, n);
      } else {
        UpperHex(c, n);
      }
    }
  }

  lemma {:induction false} UpperHex(c: Byte, n: nat)
    requires n < 16 && c as int == if n < 10 then '0' as int + n else 'A' as int - 10 + n
    ensures c == HEX[n]
  {
  }

  lemma {:induction false} LowerHex(c: Byte, n: nat)
    requires 10 <= n < 16 && c as int == 'a' as int - 10 + n
    ensures c == LOWER_HEX[n]
  {
  }

  /** How a byte may be written: as itself, or as a percent sign and two digits, or a plus sign and one. */
  ghost predicate IsPiece(piece: Bytes, c: Byte) {
    || (piece == [c] && c != '%')
    || (|piece| == 3 && piece[0] == '%' && IsEscape(piece[1], piece[2], c))
  }

  ghost predicate IsEscape(h: Byte, l: Byte, c: Byte) {
    && IsHex(l, c as int % 16)
    && (IsHex(h, c as int / 16) || (h == '+' && c as int < 16))
  }

  lemma {:induction false} EscapeExactly(h: Byte, l: Byte, c: Byte)
    ensures HexByte(h, l) == Some(c) <==> IsEscape(h, l, c)
  {
    if HexByte(h, l) == Some(c) {
      EscapeIsRead(h, l, c);
    }
    if IsEscape(h, l, c) {
      HexValueExactly(l, c as int % 16);
      if h != '+' {
        HexValueExactly(h, c as int / 16);
        HexByteOf(h, l, c as int / 16, c as int % 16);
      } else {
        NoPlus(c as int / 16);
      }
    }
  }

  lemma {:induction false} EscapeIsRead(h: Byte, l: Byte, c: Byte)
    requires HexByte(h, l) == Some(c)
    ensures IsEscape(h, l, c)
  {
    var low := HexValue(l).value;
    HexValueExactly(l, low);
    if h == '+' {
      Parts(c, 0, low);
    } else {
      var high := HexValue(h).value;
      HexValueExactly(h, high);
      HexByteOf(h, l, high, low);
      Parts(c, high, low);
    }
  }

  lemma {:induction false} Parts(c: Byte, high: nat, low: nat)
    requires high < 16 && low < 16 && c == (16 * high + low) as char
    ensures c as int / 16 == high && c as int % 16 == low
  {
  }

  function Concat(pieces: seq<Bytes>): Bytes {
    if pieces == [] then [] else pieces[0] + Concat(pieces[1..])
  }

  ghost predicate Spells(pieces: seq<Bytes>, s: Bytes, t: Bytes) {
    Concat(pieces) == s && |pieces| == |t| && forall i :: 0 <= i < |t| ==> IsPiece(pieces[i], t[i])
  }

  /** A text decodes exactly if it can be cut into pieces that write the bytes one by one. */
  lemma {:induction false} DecodedExactly(s: Bytes, t: Bytes)
    ensures Decoded(s) == Some(t) <==> exists pieces :: Spells(pieces, s, t)
  {
    if Decoded(s) == Some(t) {
      var pieces := Cut(s, t);
    }
    if pieces :| Spells(pieces, s, t) {
      PiecesDecode(pieces, s, t);
    }
  }

  lemma {:induction false} Cut(s: Bytes, t: Bytes) returns (pieces: seq<Bytes>)
    requires Decoded(s) == Some(t)
    ensures Spells(pieces, s, t)
    decreases |s|
  {
    if s == [] {
      return [];
    }
    var n := if s[0] == '%' then 3 else 1;
    if s[0] == '%' {
      EscapeExactly(s[1], s[2], t[0]);
    }
    assert Decoded(s[n..]) == Some(t[1..]);
    var more := Cut(s[n..], t[1..]);
    pieces := [s[..n]] + more;
    assert pieces[1..] == more && s == s[..n] + s[n..];
    assert IsPiece(pieces[0], t[0]);
    forall i | 0 <= i < |t| ensures IsPiece(pieces[i], t[i]) {
      if i > 0 {
        assert t[i] == t[1..][i - 1] && pieces[i] == more[i - 1];
      }
    }
  }

  lemma {:induction false} PiecesDecode(pieces: seq<Bytes>, s: Bytes, t: Bytes)
    requires Spells(pieces, s, t)
    ensures Decoded(s) == Some(t)
  {
    if pieces != [] {
      var piece, rest := pieces[0], Concat(pieces[1..]);
      forall i | 0 <= i < |t[1..]| ensures IsPiece(pieces[1..][i], t[1..][i]) {
        assert IsPiece(pieces[i + 1], t[i + 1]);
      }
      PiecesDecode(pieces[1..], rest, t[1..]);
      assert IsPiece(piece, t[0]);
      PieceDecodes(piece, t[0], rest);
      assert [t[0]] + t[1..] == t;
    }
  }

  lemma {:induction false} PieceDecodes(piece: Bytes, c: Byte, rest: Bytes)
    requires IsPiece(piece, c)
    ensures Decoded(piece + rest) == Prefixed(c, Decoded(rest))
  {
    var s := piece + rest;
    assert s[0] == piece[0] && s[|piece|..] == rest;
    if piece[0] == '%' {
      EscapeExactly(piece[1], piece[2], c);
      assert s[1] == piece[1] && s[2] == piece[2];
    }
  }

  /** The rules of `git check-ref-format`, by letters. */
  ghost predicate IsRefName(s: Bytes) {
    && 1 <= |s| <= 255
    && s[0] != '-' && s[0] != '/' && s[0] != '.'
    && s[|s| - 1] != '/' && s[|s| - 1] != '.'
    && !(|s| >= 5 && s[|s| - 5..] == ".lock")
    && (forall k :: 0 <= k < |s| ==>
          && ' ' < s[k] && s[k] as int != 127 && s[k] != '~' && s[k] != '^' && s[k] != ':'
          && s[k] != '?' && s[k] != '*' && s[k] != '[' && s[k] != '\\')
    && (forall k, l :: 0 <= k < l < |s| && l == k + 1 ==>
          && !(s[k] == '.' && s[l] == '.') && !(s[k] == '/' && s[l] == '/')
          && !(s[k] == '/' && s[l] == '.') && !(s[k] == '@' && s[l] == '{'))
  }

  lemma {:induction false} PairAt(s: Bytes, c: Byte, d: Byte, i: nat)
    ensures OccursAt(s, [c, d], i) <==> i + 2 <= |s| && s[i] == c && s[i + 1] == d
  {
    if i + 2 <= |s| {
      assert s[i..i + 2] == [s[i], s[i + 1]];
    }
  }

  lemma {:induction false} PairExactly(s: Bytes, c: Byte, d: Byte)
    ensures Contains(s, [c, d]) <==> exists k, l :: 0 <= k < l < |s| && l == k + 1 && s[k] == c && s[l] == d
  {
    if Contains(s, [c, d]) {
      var i :| 0 <= i <= |s| && OccursAt(s, [c, d], i);
      PairAt(s, c, d, i);
      var l := i + 1;
      assert s[i] == c && s[l] == d;
    }
    if k, l :| 0 <= k < l < |s| && l == k + 1 && s[k] == c && s[l] == d {
      PairAt(s, c, d, k);
    }
  }

  lemma {:induction false} EdgeExactly(s: Bytes, c: Byte)
    requires s != []
    ensures StartsWith(s, [c]) <==> s[0] == c
    ensures EndsWith(s, [c]) <==> s[|s| - 1] == c
  {
    OneAt(s, c, 0);
    OneAt(s, c, |s| - 1);
  }

  lemma {:induction false} EndsExactly(s: Bytes, tail: Bytes)
    ensures EndsWith(s, tail) <==> |s| >= |tail| && s[|s| - |tail|..] == tail
  {
    if |s| >= |tail| {
      assert s[|s| - |tail|..] == s[|s| - |tail|..|s| - |tail| + |tail|];
    }
  }

  lemma {:induction false} RefNameExactly(s: Bytes)
    ensures RefName(s) <==> IsRefName(s)
  {
    if s != [] {
      EdgeExactly(s, '-');
      EdgeExactly(s, '/');
      EdgeExactly(s, '.');
      EndsExactly(s, ".lock");
      PairExactly(s, '.', '.');
      PairExactly(s, '/', '/');
      PairExactly(s, '@', '{');
      PairExactly(s, '/', '.');
    }
  }

  /** GitHub's side: a ref name, alone or after the owner of a fork. */
  ghost predicate IsSide(side: Bytes) {
    if forall k :: 0 <= k < |side| ==> side[k] != ':' then IsRefName(side)
    else exists k :: 0 <= k < |side| && IsOwned(side, k)
  }

  /** The first colon is at `k`, with an owner before it and a ref name after it. */
  ghost predicate IsOwned(side: Bytes, k: nat)
    requires k < |side|
  {
    && side[k] == ':' && (forall j :: 0 <= j < k ==> side[j] != ':')
    && IsOwner(side[..k]) && IsRefName(side[k + 1..])
  }

  ghost predicate IsOwner(s: Bytes) {
    && 1 <= |s| <= 100 && s != "." && s != ".."
    && forall k :: 0 <= k < |s| ==>
         'a' <= s[k] <= 'z' || 'A' <= s[k] <= 'Z' || '0' <= s[k] <= '9' || s[k] == '-' || s[k] == '_' || s[k] == '.'
  }

  lemma {:induction false} ColonAt(s: Bytes, k: nat)
    requires k < |s| && s[k] == ':' && forall j :: 0 <= j < k ==> s[j] != ':'
    ensures SplitOnce(s, ":") == Some((s[..k], s[k + 1..]))
  {
    OneAt(s, ':', k);
    forall j | 0 <= j < k ensures !OccursAt(s, ":", j) {
      OneAt(s, ':', j);
    }
    FindIs(s, ":", k);
  }

  lemma {:induction false} NoColon(s: Bytes)
    ensures SplitOnce(s, ":") == None <==> forall k :: 0 <= k < |s| ==> s[k] != ':'
  {
    if SplitOnce(s, ":") == None {
      forall k | 0 <= k < |s| ensures s[k] != ':' {
        OneAt(s, ':', k);
      }
    } else {
      OneAt(s, ':', Find(s, ":", 0).value);
    }
  }

  lemma {:induction false} OwnedExactly(side: Bytes, k: nat)
    requires k < |side| && side[k] == ':' && forall j :: 0 <= j < k ==> side[j] != ':'
    ensures Side(side) <==> IsOwned(side, k)
  {
    ColonAt(side, k);
    RefNameExactly(side[k + 1..]);
    assert !RefName([]);
    assert Identifier(side[..k]) <==> IsOwner(side[..k]);
  }

  lemma {:induction false} FirstColon(side: Bytes, i: nat) returns (k: nat)
    requires i < |side| && side[i] == ':'
    ensures k < |side| && side[k] == ':' && forall j :: 0 <= j < k ==> side[j] != ':'
    decreases i
  {
    k := i;
    if j :| 0 <= j < i && side[j] == ':' {
      k := FirstColon(side, j);
    }
  }

  lemma {:induction false} SideExactly(side: Bytes)
    ensures Side(side) <==> IsSide(side)
  {
    if i :| 0 <= i < |side| && side[i] == ':' {
      var k := FirstColon(side, i);
      OwnedExactly(side, k);
      assert forall j :: 0 <= j < |side| && IsOwned(side, j) ==> j == k;
    } else {
      NoColon(side);
      RefNameExactly(side);
    }
  }

  /**
   What GitHub's address opens: the decoded part is the base, the dots and the head, and no earlier
   dots split it.
   */
  lemma {:induction false} GithubExactly(part: Bytes, r: Refs)
    ensures GithubRefs(part) == Some(r) <==>
      && Decoded(part) == Some(r.base + (if r.direct then ".." else "...") + r.head)
      && Utf8(Decoded(part).value) && IsSide(r.base) && IsSide(r.head) && SplitsBack(r)
  {
    SideExactly(r.base);
    SideExactly(r.head);
    if GithubRefs(part) == Some(r) {
      SplitJoins(Decoded(part).value);
      SplitsBackExactly(r);
    }
    if Decoded(part) == Some(Joined(r)) {
      SplitsBackExactly(r);
    }
  }

  /** The value of the last parameter with this key. */
  function Last(pairs: seq<Pair>, key: Bytes): Option<Bytes> {
    if pairs == [] then None
    else if pairs[|pairs| - 1].key == key then Some(pairs[|pairs| - 1].value)
    else Last(pairs[..|pairs| - 1], key)
  }

  lemma {:induction false} LastExactly(pairs: seq<Pair>, key: Bytes)
    ensures Last(pairs, key).None? <==> forall i :: 0 <= i < |pairs| ==> pairs[i].key != key
    ensures Last(pairs, key).Some? ==>
      exists i :: 0 <= i < |pairs| && pairs[i] == Pair(key, Last(pairs, key).value)
        && forall j :: i < j < |pairs| ==> pairs[j].key != key
  {
    if pairs != [] {
      var n := |pairs| - 1;
      var front := pairs[..n];
      LastExactly(front, key);
      forall i | 0 <= i < n ensures front[i] == pairs[i] {}
      if pairs[n].key != key && Last(front, key).Some? {
        var i :| 0 <= i < n && front[i] == Pair(key, Last(front, key).value)
          && forall j :: i < j < n ==> front[j].key != key;
        assert pairs[i] == Pair(key, Last(pairs, key).value);
      }
    }
  }

  /** The parameters GitLab's two forms take. */
  predicate IsAllowed(inPath: bool, p: Pair) {
    || (p.key == "from_project_id" && U64(p.value).Some?)
    || (p.key == "straight" && (inPath || p.value == "true" || p.value == "false"))
    || (!inPath && (p.key == "from" || p.key == "to"))
  }

  predicate AreAllowed(inPath: bool, pairs: seq<Pair>) {
    forall i :: 0 <= i < |pairs| ==> IsAllowed(inPath, pairs[i])
  }

  /** The number a project parameter names, if there is one. */
  function NumberOf(value: Option<Bytes>): Option<nat> {
    if value.Some? then U64(value.value) else None
  }

  predicate IsTrue(value: Option<Bytes>) {
    value.Some? && value.value == "true"
  }

  /** A number may have a plus sign before it. */
  predicate IsSigned(s: Bytes, digits: Bytes) {
    digits != [] && (s == digits || s == ['+'] + digits)
  }

  lemma {:induction false} NumberExactly(s: Bytes, n: nat)
    ensures U64(s) == Some(n) <==>
      n < 0x1_0000_0000_0000_0000 && exists digits :: IsSigned(s, digits) && DigitsValue(digits) == Some(n)
  {
    if U64(s) == Some(n) {
      var digits := if s != [] && s[0] == '+' then s[1..] else s;
      assert IsSigned(s, digits);
    }
    if digits :| IsSigned(s, digits) && DigitsValue(digits) == Some(n) {
      DigitsAlone(digits);
      if s != digits {
        assert s[1..] == digits;
      }
    }
  }

  /** What the parameters mean together: for each key the last one counts. */
  predicate Gathers(inPath: bool, pairs: seq<Pair>, q: Query) {
    && q.from == (if inPath then None else Last(pairs, "from"))
    && q.target == (if inPath then None else Last(pairs, "to"))
    && q.straight == (var s := Last(pairs, "straight"); if s.Some? then Some(s.value == "true") else None)
    && q.project == NumberOf(Last(pairs, "from_project_id"))
  }

  lemma {:induction false} PairGathers(inPath: bool, pairs: seq<Pair>, q: Query)
    requires pairs != [] && Gathers(inPath, pairs[..|pairs| - 1], q)
    ensures var p, r := pairs[|pairs| - 1], ReadPair(inPath, q, pairs[|pairs| - 1]);
      && (r.Ok? <==> IsAllowed(inPath, p))
      && (r.Ok? ==> Gathers(inPath, pairs, r.value))
  {
  }

  lemma {:induction false} PairsGather(inPath: bool, pairs: seq<Pair>)
    ensures ReadPairs(inPath, pairs).Ok? <==> AreAllowed(inPath, pairs)
    ensures ReadPairs(inPath, pairs).Ok? ==> Gathers(inPath, pairs, ReadPairs(inPath, pairs).value)
  {
    if pairs != [] {
      var n := |pairs| - 1;
      var front := pairs[..n];
      PairsGather(inPath, front);
      forall i | 0 <= i < n ensures front[i] == pairs[i] {}
      if ReadPairs(inPath, front).Ok? {
        PairGathers(inPath, pairs, ReadPairs(inPath, front).value);
      }
    }
  }

  /**
   What GitLab's address opens. Query form: the last `from` is the base, the last `to` the head, the
   last `straight` decides. Path form: the decoded tail is base, dots and head, and `straight` must
   not say otherwise.
   */
  ghost predicate Opens(tail: Option<Bytes>, pairs: seq<Pair>, r: Opened) {
    && AreAllowed(tail.Some?, pairs)
    && r.project == NumberOf(Last(pairs, "from_project_id"))
    && IsRefName(r.refs.base) && IsRefName(r.refs.head)
    && (var straight := Last(pairs, "straight");
        if tail.None? then
          && Last(pairs, "from") == Some(r.refs.base) && Last(pairs, "to") == Some(r.refs.head)
          && (r.refs.direct <==> IsTrue(straight))
        else
          && Decoded(tail.value) == Some(r.refs.base + (if r.refs.direct then ".." else "...") + r.refs.head)
          && Utf8(Decoded(tail.value).value)
          && (straight.Some? ==> (r.refs.direct <==> IsTrue(straight))))
  }

  lemma {:induction false} OpenedExactly(tail: Option<Bytes>, pairs: seq<Pair>)
    ensures forall r :: GitlabOpened(tail, pairs) == Ok(r) <==> Opens(tail, pairs, r)
  {
    forall r ensures GitlabOpened(tail, pairs) == Ok(r) <==> Opens(tail, pairs, r) {
      if tail.None? {
        QueryExactly(pairs, r);
      } else {
        PathExactly(tail.value, pairs, r);
      }
    }
  }

  lemma {:induction false} QueryExactly(pairs: seq<Pair>, r: Opened)
    ensures GitlabOpened(None, pairs) == Ok(r) <==> Opens(None, pairs, r)
  {
    PairsGather(false, pairs);
    RefNameExactly(r.refs.base);
    RefNameExactly(r.refs.head);
  }

  lemma {:induction false} PathFormExactly(tail: Bytes, q: Query, r: Opened)
    ensures PathForm(tail, q) == Ok(r) <==>
      && Decoded(tail) == Some(Joined(r.refs)) && Utf8(Joined(r.refs))
      && (q.straight.Some? ==> q.straight.value == r.refs.direct) && r.project == q.project
      && RefName(r.refs.base) && RefName(r.refs.head)
  {
    if RefName(r.refs.base) && RefName(r.refs.head) {
      RefNamesSplitBack(r.refs);
    }
    if Decoded(tail).Some? && SplitRange(Decoded(tail).value).Some? {
      SplitJoins(Decoded(tail).value);
    }
  }

  lemma {:induction false} JoinedBySpelling(r: Refs)
    ensures Joined(r) == r.base + (if r.direct then ".." else "...") + r.head
  {
  }

  lemma {:induction false} PathExactly(tail: Bytes, pairs: seq<Pair>, r: Opened)
    ensures GitlabOpened(Some(tail), pairs) == Ok(r) <==> Opens(Some(tail), pairs, r)
  {
    PairsGather(true, pairs);
    RefNameExactly(r.refs.base);
    RefNameExactly(r.refs.head);
    JoinedBySpelling(r.refs);
    if ReadPairs(true, pairs).Ok? {
      PathFormExactly(tail, ReadPairs(true, pairs).value, r);
    }
  }
}
