/** The order in which a range scan visits keys: lexicographic by character, a prefix first. */
module KeyOrder {

  predicate Less(a: string, b: string) {
    b != [] && (a == [] || a[0] < b[0] || (a[0] == b[0] && Less(a[1..], b[1..])))
  }

  lemma {:induction false} LessIrreflexive(a: string)
    ensures !Less(a, a)
  {
    if a != [] {
      LessIrreflexive(a[1..]);
    }
  }

  lemma {:induction false} LessTransitive(a: string, b: string, c: string)
    requires Less(a, b) && Less(b, c)
    ensures Less(a, c)
  {
    if a != [] && a[0] == b[0] == c[0] {
      LessTransitive(a[1..], b[1..], c[1..]);
    }
  }

  lemma {:induction false} LessTotal(a: string, b: string)
    ensures Less(a, b) || a == b || Less(b, a)
  {
    if a != [] && b != [] && a[0] == b[0] {
      LessTotal(a[1..], b[1..]);
      assert a == [a[0]] + a[1..] && b == [b[0]] + b[1..];
    }
  }

  predicate IsLeast(k: string, keys: set<string>) {
    k in keys && forall other :: other in keys ==> other == k || Less(k, other)
  }

  lemma {:induction false} LeastExists(keys: set<string>)
    requires keys != {}
    ensures exists k :: IsLeast(k, keys)
    decreases keys
  {
    var k :| k in keys;
    var others := keys - {k};
    if others == {} {
      assert keys == {k};
      assert IsLeast(k, keys);
    } else {
      LeastExists(others);
      var m :| IsLeast(m, others);
      LessTotal(k, m);
      if Less(k, m) {
        forall other | other in others && other != m ensures Less(k, other) {
          LessTransitive(k, m, other);
        }
        assert IsLeast(k, keys);
      } else {
        assert IsLeast(m, keys);
      }
    }
  }

  lemma {:induction false} LeastUnique(keys: set<string>, k: string, m: string)
    requires IsLeast(k, keys) && IsLeast(m, keys)
    ensures k == m
  {
    if k != m {
      LessTransitive(k, m, k);
      LessIrreflexive(k);
    }
  }

  function Least(keys: set<string>): (k: string)
    requires keys != {}
    ensures IsLeast(k, keys)
  {
    LeastExists(keys);
    assert forall a, b :: IsLeast(a, keys) && IsLeast(b, keys) ==> a == b by {
      forall a, b | IsLeast(a, keys) && IsLeast(b, keys) ensures a == b { LeastUnique(keys, a, b); }
    }
    var k :| k in keys && IsLeast(k, keys);
    k
  }

  ghost predicate Ascending(ks: seq<string>) {
    forall i, j :: 0 <= i < j < |ks| ==> Less(ks[i], ks[j])
  }

  // Every key exactly once, in ascending order.
  function SortedKeys(keys: set<string>): (ks: seq<string>)
    ensures forall k :: k in ks <==> k in keys
    ensures Ascending(ks)
    ensures |ks| == |keys|
    decreases keys
  {
    if keys == {} then []
    else
      var k := Least(keys);
      [k] + SortedKeys(keys - {k})
  }

  // The order leaves no choice: any ascending list of the same keys is the sorted one.
  lemma {:induction false} SortedKeysUnique(ks: seq<string>, keys: set<string>)
    requires Ascending(ks)
    requires forall k :: k in ks <==> k in keys
    ensures ks == SortedKeys(keys)
    decreases |ks|
  {
    if ks == [] {
      assert keys == {};
    } else {
      var k, tail := ks[0], ks[1..];
      assert ks == [k] + tail;
      forall other | other in tail ensures other != k && Less(k, other) {
        var i :| 0 <= i < |tail| && tail[i] == other;
        assert Less(ks[0], ks[i + 1]);
        LessIrreflexive(k);
      }
      assert IsLeast(k, keys);
      LeastUnique(keys, k, Least(keys));
      SortedKeysUnique(tail, keys - {k});
    }
  }

  // Equal up to k, and at k the first key has the smaller character.
  predicate SmallerAt(a: string, b: string, k: nat) {
    k < |a| && k < |b| && a[..k] == b[..k] && a[k] < b[k]
  }

  // A key precedes another exactly if it is a proper prefix of it, or has the smaller character at the
  // first place where they differ.
  lemma {:induction false} LessMeans(a: string, b: string)
    ensures Less(a, b) <==> a < b || exists k :: SmallerAt(a, b, k)
  {
    if a == [] || b == [] {
    } else if a[0] != b[0] {
      assert a[0] < b[0] ==> SmallerAt(a, b, 0);
      assert forall k :: 0 < k && SmallerAt(a, b, k) ==> a[..k][0] == b[..k][0];
    } else {
      LessMeans(a[1..], b[1..]);
      assert a[1..] < b[1..] <==> a < b by { PrefixTail(a, b); }
      if k: nat :| SmallerAt(a[1..], b[1..], k) {
        SmallerTail(a, b, k);
      }
      if k: nat :| SmallerAt(a, b, k) {
        SmallerTail(a, b, k - 1);
      }
    }
  }

  lemma {:induction false} PrefixTail(a: string, b: string)
    requires a != [] && b != [] && a[0] == b[0]
    ensures a[1..] < b[1..] <==> a < b
  {
    assert a == [a[0]] + a[1..] && b == [b[0]] + b[1..];
    if a < b {
      assert b[..|a|][1..] == a[1..];
      assert b[1..][..|a| - 1] == a[1..];
    }
    if a[1..] < b[1..] {
      assert b[1..][..|a| - 1] == a[1..];
    }
  }

  lemma {:induction false} SmallerTail(a: string, b: string, k: nat)
    requires a != [] && b != [] && a[0] == b[0]
    ensures SmallerAt(a, b, k + 1) <==> SmallerAt(a[1..], b[1..], k)
  {
    if k + 1 < |a| && k + 1 < |b| {
      assert a[..k + 1] == [a[0]] + a[1..][..k] && b[..k + 1] == [b[0]] + b[1..][..k];
      assert a[..k + 1][1..] == a[1..][..k] && b[..k + 1][1..] == b[1..][..k];
    }
  }
}
