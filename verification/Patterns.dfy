/** Regular expressions, anchored at both ends, as sets of strings. */
module Patterns {

  datatype Regex =
    | Range(lo: char, hi: char)
    | Then(first: Regex, second: Regex)
    | Either(left: Regex, right: Regex)
    | Repeat(body: Regex, min: nat, max: nat)

  function Joined(parts: seq<string>): string {
    if parts == [] then "" else parts[0] + Joined(parts[1..])
  }

  ghost predicate Accepted(r: Regex, s: string)
    decreases r, 0
  {
    match r
    case Range(lo, hi) => |s| == 1 && lo <= s[0] <= hi
    case Then(first, second) => exists i :: 0 <= i <= |s| && Accepted(first, s[..i]) && Accepted(second, s[i..])
    case Either(left, right) => Accepted(left, s) || Accepted(right, s)
    case Repeat(body, min, max) =>
      exists parts: seq<string> :: min <= |parts| <= max && Splits(body, parts, s)
  }

  ghost predicate Splits(body: Regex, parts: seq<string>, s: string)
    decreases body, 1
  {
    Joined(parts) == s && forall i :: 0 <= i < |parts| ==> Accepted(body, parts[i])
  }

  predicate Within(s: string, lo: char, hi: char) {
    forall i :: 0 <= i < |s| ==> lo <= s[i] <= hi
  }

  lemma {:induction false} JoinedUnits(parts: seq<string>, lo: char, hi: char)
    requires forall i :: 0 <= i < |parts| ==> |parts[i]| == 1 && lo <= parts[i][0] <= hi
    ensures |Joined(parts)| == |parts| && Within(Joined(parts), lo, hi)
  {
    if parts != [] {
      JoinedUnits(parts[1..], lo, hi);
    }
  }

  function Units(s: string): seq<string> {
    if s == "" then [] else [[s[0]]] + Units(s[1..])
  }

  lemma {:induction false} UnitsJoin(s: string)
    ensures Joined(Units(s)) == s && |Units(s)| == |s| && forall i :: 0 <= i < |s| ==> Units(s)[i] == [s[i]]
  {
    if s != "" {
      UnitsJoin(s[1..]);
      assert Units(s)[1..] == Units(s[1..]);
      assert s == [s[0]] + s[1..];
    }
  }

  /** A repeated character class is a bound on the length and on every character. */
  lemma RepeatedRange(lo: char, hi: char, min: nat, max: nat, s: string)
    ensures Accepted(Repeat(Range(lo, hi), min, max), s) <==> min <= |s| <= max && Within(s, lo, hi)
  {
    var unit := Range(lo, hi);
    if Accepted(Repeat(unit, min, max), s) {
      var parts: seq<string> :| min <= |parts| <= max && Splits(unit, parts, s);
      assert forall i :: 0 <= i < |parts| ==> Accepted(unit, parts[i]);
      JoinedUnits(parts, lo, hi);
    }
    if min <= |s| <= max && Within(s, lo, hi) {
      UnitsJoin(s);
      assert Splits(unit, Units(s), s);
    }
  }

  /** `(?:...)?`. */
  lemma Optional(r: Regex, s: string)
    ensures Accepted(Repeat(r, 0, 1), s) <==> s == "" || Accepted(r, s)
  {
    if Accepted(Repeat(r, 0, 1), s) {
      var parts: seq<string> :| 0 <= |parts| <= 1 && Splits(r, parts, s);
      if parts != [] {
        assert parts[1..] == [] && Joined(parts) == parts[0];
      }
    }
    if s == "" {
      assert Splits(r, [], s);
    } else if Accepted(r, s) {
      assert [s][1..] == [] && Joined([s]) == s;
      assert Splits(r, [s], s);
    }
  }
}
