/** What it means for an extended regular expression to match, and to be found in, a text. */
module Regex {

  datatype Regex =
    | Start                          // ^
    | End                            // $
    | Chr(c: char)
    | Range(lo: char, hi: char)      // [lo-hi]
    | Cat(first: Regex, second: Regex)
    | Alt(left: Regex, right: Regex)
    | Opt(body: Regex)               // (...)?
    | Star(body: Regex)              // ...*

  // The expression matches the characters from i up to j.
  ghost predicate Matches(re: Regex, t: string, i: nat, j: nat)
    requires i <= j <= |t|
    decreases re, j - i
  {
    match re
    case Start => i == j == 0
    case End => i == j == |t|
    case Chr(c) => j == i + 1 && t[i] == c
    case Range(lo, hi) => j == i + 1 && lo <= t[i] <= hi
    case Cat(first, second) => exists k :: i <= k <= j && Matches(first, t, i, k) && Matches(second, t, k, j)
    case Alt(left, right) => Matches(left, t, i, j) || Matches(right, t, i, j)
    case Opt(body) => i == j || Matches(body, t, i, j)
    case Star(body) => i == j || exists k :: i < k <= j && Matches(body, t, i, k) && Matches(re, t, k, j)
  }

  // The =~ operator: some part of the text matches.
  ghost predicate Found(re: Regex, t: string) {
    exists i: nat, j: nat :: i <= j <= |t| && Matches(re, t, i, j)
  }

  lemma {:induction false} CatSplits(first: Regex, second: Regex, t: string, i: nat, j: nat) returns (k: nat)
    requires i <= j <= |t| && Matches(Cat(first, second), t, i, j)
    ensures i <= k <= j && Matches(first, t, i, k) && Matches(second, t, k, j)
  {
    k :| i <= k <= j && Matches(first, t, i, k) && Matches(second, t, k, j);
  }

  lemma {:induction false} CatJoins(first: Regex, second: Regex, t: string, i: nat, k: nat, j: nat)
    requires i <= k <= j <= |t| && Matches(first, t, i, k) && Matches(second, t, k, j)
    ensures Matches(Cat(first, second), t, i, j)
  {
  }

  // A word written out, character by character.
  function Literal(s: string): Regex
    requires s != []
  {
    if |s| == 1 then Chr(s[0]) else Cat(Chr(s[0]), Literal(s[1..]))
  }

  // The empty text is the only one in which ^$ is found.
  lemma {:induction false} EmptyTextOnly(t: string)
    ensures Found(Cat(Start, End), t) <==> t == ""
  {
    if t == "" {
      CatJoins(Start, End, t, 0, 0, 0);
    }
    if Found(Cat(Start, End), t) {
      var i: nat, j: nat :| i <= j <= |t| && Matches(Cat(Start, End), t, i, j);
      var k := CatSplits(Start, End, t, i, j);
    }
  }
}
