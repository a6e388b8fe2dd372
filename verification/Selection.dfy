/** Which components the installer installs, and when it falls back on the older ways of naming things. */
module Selection {
  import opened Regex
  import opened Words
  import Decimal

  const SEPARATORS: set<char> := {' ', ','}

  // ---- Components ----

  datatype Target = Samples | Binary | Podman | Docker

  function Letter(target: Target): char {
    match target
    case Samples => 's'
    case Binary => 'b'
    case Podman => 'p'
    case Docker => 'd'
  }

  function Word(target: Target): (word: string)
    ensures |word| > 1 && word[0] == Letter(target)
    ensures Solid(word, SEPARATORS)
  {
    match target
    case Samples => "samples"
    case Binary => "binary"
    case Podman => "podman"
    case Docker => "docker"
  }

  const BEFORE: Regex := Alt(Start, Alt(Chr(' '), Chr(',')))

  // (^| |,)s(amples)? and its three siblings.
  function Selector(letter: char, ending: string): Regex
    requires ending != ""
  {
    Cat(BEFORE, Cat(Chr(letter), Opt(Literal(ending))))
  }

  function SelectorOf(target: Target): Regex { Selector(Letter(target), Word(target)[1..]) }

  // The same search, as a scan from the left.
  function FindsStart(t: string, letter: char, p: nat): bool
    requires p <= |t|
    decreases |t| - p
  {
    p < |t| && ((t[p] == letter && (p == 0 || t[p - 1] in SEPARATORS)) || FindsStart(t, letter, p + 1))
  }

  lemma {:induction false} FindsStartExists(t: string, letter: char, p: nat)
    requires p <= |t| && letter !in SEPARATORS
    ensures FindsStart(t, letter, p) <==> exists q :: p <= q < |t| && t[q] == letter && StartsWord(t, q, SEPARATORS)
    decreases |t| - p
  {
    if p < |t| {
      FindsStartExists(t, letter, p + 1);
      if t[p] == letter && (p == 0 || t[p - 1] in SEPARATORS) {
        assert StartsWord(t, p, SEPARATORS);
      }
    }
  }

  lemma {:induction false} BeforeWord(t: string, i: nat, p: nat)
    requires i <= p <= |t|
    ensures Matches(BEFORE, t, i, p) <==> i == p == 0 || (p == i + 1 && t[i] in SEPARATORS)
  {
    assert Matches(Alt(Chr(' '), Chr(',')), t, i, p) <==> Matches(Chr(' '), t, i, p) || Matches(Chr(','), t, i, p);
  }

  lemma {:induction false} SelectorMatchesAt(letter: char, ending: string, t: string, p: nat)
    requires ending != "" && letter !in SEPARATORS
    requires p < |t| && t[p] == letter && StartsWord(t, p, SEPARATORS)
    ensures Found(Selector(letter, ending), t)
  {
    var i := if p == 0 then 0 else p - 1;
    assert Matches(Opt(Literal(ending)), t, p + 1, p + 1);
    CatJoins(Chr(letter), Opt(Literal(ending)), t, p, p + 1, p + 1);
    BeforeWord(t, i, p);
    CatJoins(BEFORE, Cat(Chr(letter), Opt(Literal(ending))), t, i, p, p + 1);
  }

  lemma {:induction false} SelectorMatchStarts(letter: char, ending: string, t: string) returns (p: nat)
    requires ending != "" && letter !in SEPARATORS
    requires Found(Selector(letter, ending), t)
    ensures p < |t| && t[p] == letter && StartsWord(t, p, SEPARATORS)
  {
    var i: nat, j: nat :| i <= j <= |t| && Matches(Selector(letter, ending), t, i, j);
    p := CatSplits(BEFORE, Cat(Chr(letter), Opt(Literal(ending))), t, i, j);
    BeforeWord(t, i, p);
    var q := CatSplits(Chr(letter), Opt(Literal(ending)), t, p, j);
  }

  // The regular expression is found exactly when some word, between spaces and commas, begins with
  // the letter; the rest of the expression makes no difference.
  lemma {:induction false} SelectorFindsWord(letter: char, ending: string, t: string)
    requires ending != "" && letter !in SEPARATORS
    ensures Found(Selector(letter, ending), t) <==> SomeWordStartsWith(Split(t, SEPARATORS), letter)
    ensures FindsStart(t, letter, 0) <==> SomeWordStartsWith(Split(t, SEPARATORS), letter)
  {
    WordStarts(t, letter, SEPARATORS);
    FindsStartExists(t, letter, 0);
    if Found(Selector(letter, ending), t) {
      var p := SelectorMatchStarts(letter, ending, t);
    }
    if exists p :: 0 <= p < |t| && t[p] == letter && StartsWord(t, p, SEPARATORS) {
      var p :| 0 <= p < |t| && t[p] == letter && StartsWord(t, p, SEPARATORS);
      SelectorMatchesAt(letter, ending, t, p);
    }
  }

  // "${_arg_comp[@]}"
  function Joined(components: seq<string>): string { Join(components, ' ') }

  ghost predicate Selected(components: seq<string>, target: Target) { Found(SelectorOf(target), Joined(components)) }

  // The letter stands at the beginning of the text, or after a space or a comma.
  ghost predicate Begins(t: string, letter: char) {
    exists p :: 0 <= p < |t| && t[p] == letter && (p == 0 || t[p - 1] == ' ' || t[p - 1] == ',')
  }

  lemma {:induction false} SelectorFindsLetter(letter: char, ending: string, t: string)
    requires ending != "" && letter !in SEPARATORS
    ensures Found(Selector(letter, ending), t) <==> Begins(t, letter)
  {
    SelectorFindsWord(letter, ending, t);
    WordStarts(t, letter, SEPARATORS);
    if Begins(t, letter) {
      var p :| 0 <= p < |t| && t[p] == letter && (p == 0 || t[p - 1] == ' ' || t[p - 1] == ',');
      assert StartsWord(t, p, SEPARATORS);
    }
  }

  // The four expressions, by their letters.
  lemma {:induction false} SelectedByLetter(components: seq<string>)
    ensures Selected(components, Samples) <==> Begins(Join(components, ' '), 's')
    ensures Selected(components, Binary) <==> Begins(Join(components, ' '), 'b')
    ensures Selected(components, Podman) <==> Begins(Join(components, ' '), 'p')
    ensures Selected(components, Docker) <==> Begins(Join(components, ' '), 'd')
  {
    SelectorFindsLetter('s', Word(Samples)[1..], Joined(components));
    SelectorFindsLetter('b', Word(Binary)[1..], Joined(components));
    SelectorFindsLetter('p', Word(Podman)[1..], Joined(components));
    SelectorFindsLetter('d', Word(Docker)[1..], Joined(components));
  }

  ghost predicate NamedBy(component: string, target: Target) {
    SomeWordStartsWith(Split(component, SEPARATORS), Letter(target))
  }

  // Searching the one joined text is asking each component.
  lemma {:induction false} SelectedPerComponent(components: seq<string>, target: Target)
    ensures Selected(components, target) <==> exists i :: 0 <= i < |components| && NamedBy(components[i], target)
  {
    var letter := Letter(target);
    SelectorFindsWord(letter, Word(target)[1..], Joined(components));
    SplitJoin(components, ' ', SEPARATORS);
    var words := SplitEach(components, SEPARATORS);
    if SomeWordStartsWith(words, letter) {
      var k :| 0 <= k < |words| && words[k] != [] && words[k][0] == letter;
      InSplitEach(components, SEPARATORS, words[k]);
      var i :| 0 <= i < |components| && words[k] in Split(components[i], SEPARATORS);
      assert NamedBy(components[i], target);
    }
    if exists i :: 0 <= i < |components| && NamedBy(components[i], target) {
      var i :| 0 <= i < |components| && NamedBy(components[i], target);
      var own := Split(components[i], SEPARATORS);
      var k :| 0 <= k < |own| && own[k] != [] && own[k][0] == letter;
      InSplitEach(components, SEPARATORS, own[k]);
      assert own[k] in words;
    }
  }

  // Order and repetition of the components make no difference to what is selected.
  lemma {:induction false} SelectedBySet(a: seq<string>, b: seq<string>, target: Target)
    requires forall x :: x in a <==> x in b
    ensures Selected(a, target) <==> Selected(b, target)
  {
    SelectedPerComponent(a, target);
    SelectedPerComponent(b, target);
    if exists i :: 0 <= i < |a| && NamedBy(a[i], target) {
      var i :| 0 <= i < |a| && NamedBy(a[i], target);
      assert a[i] in b;
    }
    if exists i :: 0 <= i < |b| && NamedBy(b[i], target) {
      var i :| 0 <= i < |b| && NamedBy(b[i], target);
      assert b[i] in a;
    }
  }

  // Nor does it matter whether components come as one comma-separated argument or as several.
  lemma {:induction false} SelectedByGrouping(components: seq<string>, target: Target)
    ensures Selected([Join(components, ',')], target) <==> Selected(components, target)
  {
    SelectorFindsWord(Letter(target), Word(target)[1..], Joined(components));
    SelectorFindsWord(Letter(target), Word(target)[1..], Join(components, ','));
    SplitJoin(components, ' ', SEPARATORS);
    SplitJoin(components, ',', SEPARATORS);
  }

  // ---- The documented names ----

  // A component as the usage text writes it: the word, or its first letter.
  predicate Names(text: string, target: Target) { text == Word(target) || text == [Letter(target)] }

  lemma {:induction false} NamesLiterally(text: string)
    ensures Names(text, Samples) <==> text in {"samples", "s"}
    ensures Names(text, Binary) <==> text in {"binary", "b"}
    ensures Names(text, Podman) <==> text in {"podman", "p"}
    ensures Names(text, Docker) <==> text in {"docker", "d"}
  {
  }

  lemma {:induction false} NameSelectsItsOwn(text: string, named: Target, target: Target)
    requires Names(text, named)
    ensures NamedBy(text, target) <==> named == target
  {
    assert Solid([Letter(named)], SEPARATORS);
    SplitSolid(text, SEPARATORS);
    assert Split(text, SEPARATORS)[0][0] == Letter(named);
  }

  // Components written as documented select exactly the targets they name.
  lemma {:induction false} DocumentedNames(texts: seq<string>, targets: seq<Target>, target: Target)
    requires |texts| == |targets|
    requires forall i :: 0 <= i < |texts| ==> Names(texts[i], targets[i])
    ensures Selected(texts, target) <==> target in targets
  {
    SelectedPerComponent(texts, target);
    forall i | 0 <= i < |texts| ensures NamedBy(texts[i], target) <==> targets[i] == target {
      NameSelectsItsOwn(texts[i], targets[i], target);
    }
  }

  // ---- Where the usage text and the search differ ----

  predicate Documented(text: string) { exists target: Target :: Names(text, target) }

  ghost predicate NamesNothing(text: string) {
    forall target: Target :: !SomeWordStartsWith(Split(text, SEPARATORS), Letter(target))
  }

  // The search takes a component as the usage text does exactly when it is a documented name, or has
  // no word beginning with s, b, p or d.
  lemma {:induction false} SearchAsDocumented(text: string)
    ensures (forall target :: NamedBy(text, target) <==> Names(text, target)) <==> Documented(text) || NamesNothing(text)
  {
    if Documented(text) {
      var named: Target :| Names(text, named);
      forall target: Target ensures NamedBy(text, target) <==> Names(text, target) {
        NameSelectsItsOwn(text, named, target);
        if Names(text, target) {
          NameSelectsItsOwn(text, target, target);
        }
      }
    } else if !NamesNothing(text) {
      var target: Target :| SomeWordStartsWith(Split(text, SEPARATORS), Letter(target));
      assert NamedBy(text, target) && !Names(text, target);
    }
  }

  // "backup" is no documented name, and selects the binaries.
  lemma {:induction false} UndocumentedNameSelects()
    ensures !Documented("backup") && NamedBy("backup", Binary) && Selected(["backup"], Binary)
  {
    SplitSolid("backup", SEPARATORS);
    assert Split("backup", SEPARATORS)[0][0] == 'b';
    SelectedPerComponent(["backup"], Binary);
    assert ["backup"][0] == "backup";
    forall target ensures !Names("backup", target) { assert "backup"[1] == 'a'; }
  }

  ghost predicate NamedAmong(texts: seq<string>, target: Target) {
    exists i :: 0 <= i < |texts| && Names(texts[i], target)
  }

  // Whatever an undocumented component selects is named by a documented one as well.
  ghost predicate OnlyNamedSelected(texts: seq<string>) {
    forall i, target :: 0 <= i < |texts| && !Documented(texts[i]) && NamedBy(texts[i], target) ==>
                          NamedAmong(texts, target)
  }

  // A list of components selects exactly the targets it names, as the usage text has it, if and only if
  // whatever an undocumented component selects is named by a documented one as well.
  lemma {:induction false} SelectionAsDocumented(texts: seq<string>)
    ensures (forall target :: Selected(texts, target) <==> NamedAmong(texts, target)) <==>
            OnlyNamedSelected(texts)
  {
    forall target
      ensures Selected(texts, target) <==> exists i :: 0 <= i < |texts| && NamedBy(texts[i], target)
    {
      SelectedPerComponent(texts, target);
    }
    forall i, named, target | 0 <= i < |texts| && Names(texts[i], named)
      ensures NamedBy(texts[i], target) <==> named == target
    {
      NameSelectsItsOwn(texts[i], named, target);
    }
  }

  // ---- The default ----

  const EVERYTHING: seq<string> := ["samples,binary,docker"]

  function Effective(components: seq<string>): seq<string> {
    if Joined(components) == "" then EVERYTHING else components
  }

  // The default takes over exactly when nothing, or one empty argument, was given.
  lemma {:induction false} DefaultCondition(components: seq<string>)
    ensures Found(Cat(Start, End), Joined(components)) <==> components == [] || components == [""]
  {
    EmptyTextOnly(Joined(components));
  }

  lemma {:induction false} EverythingJoins()
    ensures "samples,binary,docker" == Join([Word(Samples), Word(Binary), Word(Docker)], ',')
  {
    var names := [Word(Samples), Word(Binary), Word(Docker)];
    assert names[1..] == [Word(Binary), Word(Docker)] && names[2..] == [Word(Docker)];
    assert names[1..][1..] == names[2..];
  }

  // By default everything but the podman images is installed.
  lemma {:induction false} DefaultSelects(target: Target)
    ensures Selected(EVERYTHING, target) <==> target != Podman
  {
    var names := [Word(Samples), Word(Binary), Word(Docker)];
    EverythingJoins();
    SelectedByGrouping(names, target);
    DocumentedNames(names, [Samples, Binary, Docker], target);
  }

  // ---- Version gates ----

  // ^1\.[0-1]\.* and ^2\.[0-4]\.*, which single out older releases.
  function Gate(major: nat, lastMinor: nat): Regex
    requires major < 10 && lastMinor < 10
  {
    Cat(Start, Cat(Chr(Decimal.Digit(major)), Cat(Chr('.'), Cat(Range('0', Decimal.Digit(lastMinor)), Star(Chr('.'))))))
  }

  // The same test on the first three characters.
  predicate Opens(version: string, major: nat, lastMinor: nat)
    requires major < 10 && lastMinor < 10
  {
    |version| >= 3 && version[0] == Decimal.Digit(major) && version[1] == '.' && '0' <= version[2] <= Decimal.Digit(lastMinor)
  }

  lemma {:induction false} GateOpens(version: string, major: nat, lastMinor: nat)
    requires major < 10 && lastMinor < 10
    ensures Found(Gate(major, lastMinor), version) <==> Opens(version, major, lastMinor)
  {
    var dots := Star(Chr('.'));
    var minor := Cat(Range('0', Decimal.Digit(lastMinor)), dots);
    var dotted := Cat(Chr('.'), minor);
    var rest := Cat(Chr(Decimal.Digit(major)), dotted);
    if Opens(version, major, lastMinor) {
      assert Matches(dots, version, 3, 3);
      CatJoins(Range('0', Decimal.Digit(lastMinor)), dots, version, 2, 3, 3);
      CatJoins(Chr('.'), minor, version, 1, 2, 3);
      CatJoins(Chr(Decimal.Digit(major)), dotted, version, 0, 1, 3);
      CatJoins(Start, rest, version, 0, 0, 3);
    }
    if Found(Gate(major, lastMinor), version) {
      var i: nat, j: nat :| i <= j <= |version| && Matches(Gate(major, lastMinor), version, i, j);
      var k0 := CatSplits(Start, rest, version, i, j);
      var k1 := CatSplits(Chr(Decimal.Digit(major)), dotted, version, k0, j);
      var k2 := CatSplits(Chr('.'), minor, version, k1, j);
      var k3 := CatSplits(Range('0', Decimal.Digit(lastMinor)), dots, version, k2, j);
    }
  }

  // On a version major'.minor'... the gate looks at the leading digit of the minor number only.
  lemma {:induction false} GateOnNumbers(major: nat, lastMinor: nat, major': nat, minor': nat, rest: string)
    requires major < 10 && lastMinor < 10
    requires rest == "" || !Decimal.IsDigit(rest[0])
    ensures Opens(Decimal.OfNat(major') + "." + Decimal.OfNat(minor') + rest, major, lastMinor) <==>
            major' == major && Decimal.LeadingDigit(minor') <= lastMinor
  {
    var front, back := Decimal.OfNat(major'), Decimal.OfNat(minor');
    var version := front + "." + back + rest;
    assert version[0] == front[0];
    assert version[|front|] == '.' && version[|front| + 1] == back[0];
    if |front| == 1 {
      assert major' < 10;
    } else {
      assert Decimal.IsDigit(front[1]) && version[1] == front[1];
    }
  }

  // What the comments say the gate is for: releases up to a minor number of a major one.
  predicate Prior(major: nat, lastMinor: nat, major': nat, minor': nat) {
    major' < major || (major' == major && minor' <= lastMinor)
  }

  // For every version number, gate and comment agree exactly on later major numbers, and within the
  // major number itself unless the minor number has several digits and begins with a low one. On every
  // earlier major number they disagree.
  lemma {:induction false} GateMeansPrior(major: nat, lastMinor: nat, major': nat, minor': nat, rest: string)
    requires major < 10 && lastMinor < 10
    requires rest == "" || !Decimal.IsDigit(rest[0])
    ensures var version := Decimal.OfNat(major') + "." + Decimal.OfNat(minor') + rest;
            (Found(Gate(major, lastMinor), version) <==> Prior(major, lastMinor, major', minor')) <==>
            (major' > major || (major' == major && !(minor' >= 10 && Decimal.LeadingDigit(minor') <= lastMinor)))
  {
    GateOpens(Decimal.OfNat(major') + "." + Decimal.OfNat(minor') + rest, major, lastMinor);
    GateOnNumbers(major, lastMinor, major', minor', rest);
  }

  // Release 1.14.0 is taken for one prior to 1.2.0.
  lemma {:induction false} GateMistakesLaterRelease()
    ensures Found(Gate(1, 1), "1.14.0")
  {
    GateOpens("1.14.0", 1, 1);
  }

  // Release 1.4.12 is not taken for one prior to 2.5, nor 0.6.1 for one prior to 1.2.0.
  lemma {:induction false} GateMissesEarlierReleases()
    ensures !Found(Gate(2, 4), "1.4.12") && !Found(Gate(1, 1), "0.6.1")
  {
    GateOpens("1.4.12", 2, 4);
    GateOpens("0.6.1", 1, 1);
  }
}
