/**
 Entire Trail addresses (crates/adapters/src/entire.rs): the parts of the path
 and the address that is printed for them. The URL checks come before; a path is
 given by its parts between slashes.
 */
module Trails {
  import opened Text
  import opened Wrappers

  datatype Change = Change(repo: Bytes, number: nat)

  datatype Selection = Project(number: nat, change: Option<Change>) | Repository(repo: Bytes, number: nat)

  datatype Address = Address(forge: Bytes, project: Bytes, selection: Selection)

  predicate Alphanumeric(c: Byte) {
    'A' <= c <= 'Z' || 'a' <= c <= 'z' || '0' <= c <= '9'
  }

  predicate ProjectName(s: Bytes) {
    && s != [] && |s| <= 39
    && Alphanumeric(s[0]) && Alphanumeric(s[|s| - 1])
    && forall k :: 0 <= k < |s| ==> Alphanumeric(s[k]) || s[k] == '-'
  }

  predicate RepoName(s: Bytes) {
    && s != [] && |s| <= 100 && s != "." && s != ".." && s != "-"
    && forall k :: 0 <= k < |s| ==> Alphanumeric(s[k]) || s[k] == '-' || s[k] == '_' || s[k] == '.'
  }

  /** At most ten digits, and not zero. */
  function TrailNumber(s: Bytes): Option<nat> {
    var n := DigitsValue(s);
    if s == [] || |s| > 10 || n.None? || n.value == 0 then None else n
  }

  function Lower(s: Bytes): (r: Bytes)
    ensures |r| == |s| && forall k :: 0 <= k < |s| ==> r[k] == LowerByte(s[k])
  {
    if s == [] then [] else Lower(s[..|s| - 1]) + [LowerByte(s[|s| - 1])]
  }

  function LowerByte(c: Byte): Byte {
    if 'A' <= c <= 'Z' then (c as int + 32) as char else c
  }

  function ParseChange(p: seq<Bytes>): Option<Change>
    requires |p| == 8
  {
    var number := TrailNumber(p[7]);
    if p[5] == "changes" && RepoName(p[6]) && number.Some? then Some(Change(p[6], number.value)) else None
  }

  function ParseSelection(p: seq<Bytes>): Option<Selection>
    requires |p| >= 5
  {
    var number := TrailNumber(p[4]);
    if p[2] == "-" && p[3] == "trails" then
      if number.None? then None
      else if |p| == 5 then Some(Project(number.value, None))
      else if |p| == 8 && ParseChange(p).Some? then Some(Project(number.value, ParseChange(p)))
      else None
    else if (|p| == 5 || (|p| == 6 && RepoName(p[5]))) && RepoName(p[2]) && p[3] == "trails" && number.Some? then
      Some(Repository(p[2], number.value))
    else None
  }

  function Parse(p: seq<Bytes>): Option<Address> {
    if |p| < 5 || (p[0] != "et" && p[0] != "gh") || !ProjectName(p[1]) || ParseSelection(p).None? then None
    else Some(Address(p[0], Lower(p[1]), ParseSelection(p).value))
  }

  function CanonicalPath(a: Address): seq<Bytes> {
    match a.selection
    case Project(number, None) => [a.forge, a.project, "-", "trails", Decimal(number)]
    case Project(number, Some(change)) =>
      [a.forge, a.project, "-", "trails", Decimal(number), "changes", change.repo, Decimal(change.number)]
    case Repository(repo, number) => [a.forge, a.project, repo, "trails", Decimal(number)]
  }

  lemma {:induction false} NumberReads(s: Bytes)
    requires TrailNumber(s).Some?
    ensures TrailNumber(Decimal(TrailNumber(s).value)) == TrailNumber(s)
  {
    var n := TrailNumber(s).value;
    ValueIsSmall(s);
    Pow10Grows(|s|, 10);
    DecimalIsShort(n, 10);
    DecimalReads(n);
  }

  lemma {:induction false} LowerKeepsName(s: Bytes)
    requires ProjectName(s)
    ensures ProjectName(Lower(s)) && Lower(Lower(s)) == Lower(s)
  {
    var r := Lower(s);
    forall k | 0 <= k < |s| ensures (Alphanumeric(r[k]) || r[k] == '-') && Lower(r)[k] == r[k] {
      assert Alphanumeric(s[k]) || s[k] == '-';
    }
  }

  /** Parsing the printed address gives back the forge, the project and the selection. */
  lemma {:induction false} TrailReopens(p: seq<Bytes>)
    requires Parse(p).Some?
    ensures Parse(CanonicalPath(Parse(p).value)) == Parse(p)
  {
    NumberReads(p[4]);
    LowerKeepsName(p[1]);
    if |p| == 8 {
      NumberReads(p[7]);
    }
  }

  /** What an address is, part by part: the project in lower case, the rest as written. */
  predicate IsTrail(p: seq<Bytes>, a: Address) {
    && |p| >= 5 && (p[0] == "et" || p[0] == "gh") && a.forge == p[0]
    && IsProject(p[1]) && IsLower(p[1], a.project)
    && p[3] == "trails"
    && match a.selection
       case Project(number, None) => |p| == 5 && p[2] == "-" && Denotes(p[4], number)
       case Project(number, Some(change)) =>
         && |p| == 8 && p[2] == "-" && Denotes(p[4], number)
         && p[5] == "changes" && p[6] == change.repo && IsRepo(p[6]) && Denotes(p[7], change.number)
       case Repository(repo, number) =>
         && (|p| == 5 || (|p| == 6 && IsRepo(p[5])))
         && p[2] == repo && IsRepo(repo) && Denotes(p[4], number)
  }

  /** Letters, digits and hyphens, none of them at an end. */
  predicate IsProject(s: Bytes) {
    && 1 <= |s| <= 39 && s[0] != '-' && s[|s| - 1] != '-'
    && forall k :: 0 <= k < |s| ==> 'a' <= s[k] <= 'z' || 'A' <= s[k] <= 'Z' || '0' <= s[k] <= '9' || s[k] == '-'
  }

  /** Letters, digits, hyphens, underscores and dots, but no path of its own and no lone hyphen. */
  predicate IsRepo(s: Bytes) {
    && 1 <= |s| <= 100 && !(|s| == 1 && (s[0] == '.' || s[0] == '-')) && !(|s| == 2 && s[0] == s[1] == '.')
    && forall k :: 0 <= k < |s| ==>
         || 'a' <= s[k] <= 'z' || 'A' <= s[k] <= 'Z' || '0' <= s[k] <= '9'
         || s[k] == '-' || s[k] == '_' || s[k] == '.'
  }

  lemma {:induction false} NamesExactly(s: Bytes)
    ensures ProjectName(s) <==> IsProject(s)
    ensures RepoName(s) <==> IsRepo(s)
  {
    if s != [] {
      assert Alphanumeric(s[0]) || s[0] == '-' || !IsProject(s);
    }
    if |s| == 1 {
      assert s == [s[0]];
    }
    if |s| == 2 {
      assert s == [s[0], s[1]];
    }
  }

  predicate Denotes(s: Bytes, n: nat) {
    1 <= |s| <= 10 && n > 0 && DigitsValue(s) == Some(n)
  }

  predicate IsLower(s: Bytes, r: Bytes) {
    && |r| == |s|
    && forall k :: 0 <= k < |s| ==>
         if 'A' <= s[k] <= 'Z' then r[k] as int - 'a' as int == s[k] as int - 'A' as int else r[k] == s[k]
  }

  /** An address is read exactly where the parts are those of one. */
  lemma {:induction false} ParseExactly(p: seq<Bytes>, a: Address)
    ensures Parse(p) == Some(a) <==> IsTrail(p, a)
  {
    if |p| >= 5 {
      NamesExactly(p[1]);
      SelectionExactly(p, a);
      LowerExactly(p[1], a.project);
    }
  }

  lemma {:induction false} SelectionExactly(p: seq<Bytes>, a: Address)
    requires |p| >= 5
    ensures ParseSelection(p) == Some(a.selection) <==>
      IsTrail(p, a) || IsTrail(["et", "x"] + p[2..], a.(forge := "et", project := "x"))
  {
    var q := ["et", "x"] + p[2..];
    assert forall k :: 2 <= k < |p| ==> q[k] == p[k];
    NamesExactly(p[2]);
    if |p| >= 6 {
      NamesExactly(p[5]);
    }
    if |p| >= 7 {
      NamesExactly(p[6]);
    }
    assert !IsRepo("-");
    assert IsLower("x", "x") && IsProject("x");
  }

  lemma {:induction false} LowerExactly(s: Bytes, r: Bytes)
    ensures Lower(s) == r <==> IsLower(s, r)
  {
    if IsLower(s, r) {
      forall k | 0 <= k < |s| ensures Lower(s)[k] == r[k] {}
    }
  }

  /** The printed address is read as the address it was printed for, whatever that was read from. */
  lemma {:induction false} PrintedIsTrail(p: seq<Bytes>, a: Address)
    requires IsTrail(p, a)
    ensures IsTrail(CanonicalPath(a), a)
  {
    ParseExactly(p, a);
    TrailReopens(p);
    ParseExactly(CanonicalPath(a), a);
  }
}
