/** Splitting a text into words at separator characters, and joining texts with one. */
module Words {

  predicate Solid(s: string, separators: set<char>) { forall i :: 0 <= i < |s| ==> s[i] !in separators }

  // The number of characters before the first separator.
  function WordLength(s: string, separators: set<char>): (n: nat)
    ensures n <= |s| && Solid(s[..n], separators)
    ensures n < |s| ==> s[n] in separators
    ensures s != [] && s[0] !in separators ==> n > 0
  {
    if s == [] || s[0] in separators then 0 else 1 + WordLength(s[1..], separators)
  }

  // The words of s: the longest runs without a separator. No word is empty.
  function Split(s: string, separators: set<char>): (words: seq<string>)
    ensures forall i :: 0 <= i < |words| ==> words[i] != [] && Solid(words[i], separators)
    decreases |s|
  {
    if s == [] then []
    else if s[0] in separators then Split(s[1..], separators)
    else
      var n := WordLength(s, separators);
      [s[..n]] + Split(s[n..], separators)
  }

  lemma {:induction false} WordLengthStops(s: string, c: char, rest: string, separators: set<char>)
    requires c in separators
    ensures WordLength(s + [c] + rest, separators) == WordLength(s, separators)
  {
    if s == [] {
      assert (s + [c] + rest)[0] == c;
    } else {
      assert (s + [c] + rest)[0] == s[0];
      assert (s + [c] + rest)[1..] == s[1..] + [c] + rest;
      if s[0] !in separators {
        WordLengthStops(s[1..], c, rest, separators);
      }
    }
  }

  // A separator cuts the words of a text in two.
  lemma {:induction false} SplitAt(s: string, c: char, rest: string, separators: set<char>)
    requires c in separators
    ensures Split(s + [c] + rest, separators) == Split(s, separators) + Split(rest, separators)
    decreases |s|
  {
    var whole := s + [c] + rest;
    if s == [] {
      assert whole[0] == c && whole[1..] == rest;
    } else if s[0] in separators {
      assert whole[0] == s[0] && whole[1..] == s[1..] + [c] + rest;
      SplitAt(s[1..], c, rest, separators);
    } else {
      var n := WordLength(s, separators);
      WordLengthStops(s, c, rest, separators);
      assert whole[0] == s[0] && whole[..n] == s[..n] && whole[n..] == s[n..] + [c] + rest;
      SplitAt(s[n..], c, rest, separators);
    }
  }

  lemma {:induction false} SplitSolid(s: string, separators: set<char>)
    requires s != [] && Solid(s, separators)
    ensures Split(s, separators) == [s]
  {
    var n := WordLength(s, separators);
    assert n == |s| && s[..n] == s && s[n..] == [];
  }

  // Texts one after the other with a character between them, as "${array[@]}" joins with a space.
  function Join(texts: seq<string>, c: char): string {
    if texts == [] then [] else if |texts| == 1 then texts[0] else texts[0] + [c] + Join(texts[1..], c)
  }

  function SplitEach(texts: seq<string>, separators: set<char>): seq<string> {
    if texts == [] then [] else Split(texts[0], separators) + SplitEach(texts[1..], separators)
  }

  // The words of the joined text are the words of its parts, in order.
  lemma {:induction false} SplitJoin(texts: seq<string>, c: char, separators: set<char>)
    requires c in separators
    ensures Split(Join(texts, c), separators) == SplitEach(texts, separators)
  {
    if |texts| == 1 {
      assert SplitEach(texts, separators) == Split(texts[0], separators) + [];
    } else if texts != [] {
      SplitAt(texts[0], c, Join(texts[1..], c), separators);
      SplitJoin(texts[1..], c, separators);
    }
  }

  lemma {:induction false} InSplitEach(texts: seq<string>, separators: set<char>, word: string)
    ensures word in SplitEach(texts, separators) <==>
            exists i :: 0 <= i < |texts| && word in Split(texts[i], separators)
  {
    if texts != [] {
      InSplitEach(texts[1..], separators, word);
      if exists i :: 0 <= i < |texts| && word in Split(texts[i], separators) {
        var i :| 0 <= i < |texts| && word in Split(texts[i], separators);
        assert i > 0 ==> texts[1..][i - 1] == texts[i];
      }
      if exists i :: 0 <= i < |texts[1..]| && word in Split(texts[1..][i], separators) {
        var i :| 0 <= i < |texts[1..]| && word in Split(texts[1..][i], separators);
        assert texts[i + 1] == texts[1..][i];
      }
    }
  }

  // ---- Where words begin ----

  ghost predicate StartsWord(s: string, p: nat, separators: set<char>)
    requires p < |s|
  {
    s[p] !in separators && (p == 0 || s[p - 1] in separators)
  }

  ghost predicate SomeWordStartsWith(words: seq<string>, c: char) {
    exists i :: 0 <= i < |words| && words[i] != [] && words[i][0] == c
  }

  lemma {:induction false} WordStarts(s: string, c: char, separators: set<char>)
    ensures SomeWordStartsWith(Split(s, separators), c) <==>
            exists p :: 0 <= p < |s| && s[p] == c && StartsWord(s, p, separators)
    decreases |s|
  {
    if s == [] {
    } else {
      var n := if s[0] in separators then 1 else WordLength(s, separators);
      var tail := s[n..];
      WordStarts(tail, c, separators);
      StartsShift(s, n, separators);
      var words := Split(s, separators);
      if s[0] !in separators {
        assert words == [s[..n]] + Split(tail, separators);
        assert words[0][0] == s[0];
        assert forall i :: 0 <= i < |Split(tail, separators)| ==> words[i + 1] == Split(tail, separators)[i];
        assert StartsWord(s, 0, separators);
      }
      if exists p :: 0 <= p < |tail| && tail[p] == c && StartsWord(tail, p, separators) {
        var p :| 0 <= p < |tail| && tail[p] == c && StartsWord(tail, p, separators);
        assert s[n + p] == c && StartsWord(s, n + p, separators);
      }
      if exists p :: 0 <= p < |s| && s[p] == c && StartsWord(s, p, separators) {
        var p :| 0 <= p < |s| && s[p] == c && StartsWord(s, p, separators);
        if p >= n {
          assert tail[p - n] == c && StartsWord(tail, p - n, separators);
        }
      }
    }
  }

  // Past the first word, or the first separator, the places where words begin are those of the rest;
  // before that there is at most the very beginning.
  lemma {:induction false} StartsShift(s: string, n: nat, separators: set<char>)
    requires s != [] && n == if s[0] in separators then 1 else WordLength(s, separators)
    ensures forall p :: n <= p < |s| ==> (StartsWord(s, p, separators) <==> StartsWord(s[n..], p - n, separators))
    ensures forall p :: 0 <= p < n ==> (StartsWord(s, p, separators) <==> p == 0 && s[0] !in separators)
  {
    forall p | 0 < p < n ensures !StartsWord(s, p, separators) {
      assert s[p - 1] == s[..n][p - 1];
    }
    forall p | n <= p < |s| ensures StartsWord(s, p, separators) <==> StartsWord(s[n..], p - n, separators) {
      if p == n && s[0] !in separators {
        assert s[n] in separators;
      }
    }
  }
}
