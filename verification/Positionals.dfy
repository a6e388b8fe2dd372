/** How the installer copies its positional arguments into an array, by way of the names of its slots. */
module Positionals {
  import opened Wrappers
  import opened Words
  import Decimal

  const BLANKS: set<char> := {' ', '\t', '\n'}
  const ARRAY_NAME: string := "_arg_comp"

  // An indexed array with the slots that are set; a slot may be unset.
  type Slots = seq<Option<string>>

  function Assign(slots: Slots, i: nat, value: string): (r: Slots)
    ensures |r| == if i < |slots| then |slots| else i + 1
    ensures r[i] == Some(value)
    ensures forall k :: 0 <= k < |r| && k != i ==> r[k] == if k < |slots| then slots[k] else None
  {
    if i < |slots| then slots[i := Some(value)] else slots + seq(i - |slots|, _ => None) + [Some(value)]
  }

  // "${array[@]}": the set slots, in order.
  function Elements(slots: Slots): seq<string> {
    if slots == [] then []
    else (if slots[0].Some? then [slots[0].value] else []) + Elements(slots[1..])
  }

  function Filled(values: seq<string>): (slots: Slots)
    ensures |slots| == |values| && forall i :: 0 <= i < |values| ==> slots[i] == Some(values[i])
  {
    if values == [] then [] else [Some(values[0])] + Filled(values[1..])
  }

  lemma {:induction false} ElementsFilled(values: seq<string>)
    ensures Elements(Filled(values)) == values
  {
    if values != [] {
      ElementsFilled(values[1..]);
      assert Filled(values)[1..] == Filled(values[1..]);
      assert [values[0]] + values[1..] == values;
    }
  }

  // ---- Slot names ----

  function SlotName(i: nat): string {
    if i == 0 then ARRAY_NAME else ARRAY_NAME + "[" + Decimal.OfNat(i) + "]"
  }

  // The slot an assignment to this name sets; the array's own name stands for slot 0.
  function SlotIndex(name: string): Option<nat> {
    var n := |ARRAY_NAME|;
    if name == ARRAY_NAME then Some(0)
    else if |name| > n + 2 && name[..n] == ARRAY_NAME && name[n] == '[' && name[|name| - 1] == ']'
         && Decimal.AllDigits(name[n + 1..|name| - 1])
    then Some(Decimal.ToNat(name[n + 1..|name| - 1]))
    else None
  }

  lemma {:induction false} SlotIndexOfName(i: nat)
    ensures SlotIndex(SlotName(i)) == Some(i)
  {
    if i > 0 {
      var n, digits := |ARRAY_NAME|, Decimal.OfNat(i);
      var name := SlotName(i);
      assert name == ARRAY_NAME + (['['] + (digits + [']']));
      assert |name| == n + 1 + |digits| + 1;
      assert name[..n] == ARRAY_NAME && name[n] == '[' && name[|name| - 1] == ']';
      assert name[n + 1..|name| - 1] == digits;
      Decimal.ToNatOfNat(i);
    }
  }

  lemma {:induction false} SlotNameSolid(i: nat)
    ensures SlotName(i) != "" && Solid(SlotName(i), BLANKS)
  {
    if i > 0 {
      var digits := Decimal.OfNat(i);
      assert Solid(digits, BLANKS);
      assert Solid(ARRAY_NAME + "[", BLANKS);
    }
  }

  // The text the first loop builds: the array's name, then the names of slots 1 to k.
  function NamesText(k: nat): string {
    if k == 0 then ARRAY_NAME + " " else NamesText(k - 1) + " " + SlotName(k)
  }

  function SlotNames(n: nat): (names: seq<string>)
    ensures |names| == n && forall i :: 0 <= i < n ==> names[i] == SlotName(i)
  {
    if n == 0 then [] else SlotNames(n - 1) + [SlotName(n - 1)]
  }

  // The words of that text are the names of slots 0 to k.
  lemma {:induction false} NamesTextSplits(k: nat)
    ensures Split(NamesText(k), BLANKS) == SlotNames(k + 1)
  {
    SlotNameSolid(k);
    SplitSolid(SlotName(k), BLANKS);
    if k == 0 {
      assert ARRAY_NAME + " " == ARRAY_NAME + [' '] + "";
      SplitAt(ARRAY_NAME, ' ', "", BLANKS);
      assert SlotNames(0) == [];
    } else {
      NamesTextSplits(k - 1);
      SplitAt(NamesText(k - 1), ' ', SlotName(k), BLANKS);
    }
  }
}
