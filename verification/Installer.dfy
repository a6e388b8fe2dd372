/** The installer from its command line to the list of things it sets out to do. */
module Installer {
  import opened Wrappers
  import opened CommandLine
  import opened Positionals
  import opened Selection
  import opened Regex
  import opened Words
  import Decimal

  datatype Action = CloneSamples | PullBinaries | PullPodmanImages | PullDockerImages

  datatype Outcome =
    | Died(key: string)   // status 1: the option lacks its value
    | ShowedHelp          // status 0
    | Plan(fabricVersion: string, caVersion: string, machineTags: bool, amdOnDarwin: bool, actions: seq<Action>)

  // Samples first, so that the binaries go into their directory; then binaries, podman, docker.
  function ActionList(samples: bool, binary: bool, podman: bool, docker: bool): seq<Action> {
    (if samples then [CloneSamples] else [])
    + (if binary then [PullBinaries] else [])
    + (if podman then [PullPodmanImages] else [])
    + (if docker then [PullDockerImages] else [])
  }

  ghost function ActionsFor(components: seq<string>): seq<Action> {
    var chosen := Effective(components);
    ActionList(Selected(chosen, Samples), Selected(chosen, Binary), Selected(chosen, Podman), Selected(chosen, Docker))
  }

  function ComponentsGiven(o: Options): seq<string> { if o.positionals == [] then [""] else o.positionals }

  ghost function Expected(args: seq<string>): Outcome {
    match Parse(DEFAULTS, args)
    case MissingValue(key) => Died(key)
    case Help => ShowedHelp
    case Parsed(o) => PlanOf(o)
  }

  ghost function PlanOf(o: Options): Outcome {
    Plan(o.fabricVersion, o.caVersion, Found(Gate(1, 1), o.fabricVersion), Found(Gate(2, 4), o.fabricVersion),
         ActionsFor(ComponentsGiven(o)))
  }

  /** The script's variables. */
  class Script {
    var argFabricVersion: string
    var argCaVersion: string
    var positionals: seq<string>
    var positionalsCount: int
    var argComp: Slots

    constructor ()
      ensures Collected() == DEFAULTS && argComp == [Some("")]
    {
      argFabricVersion, argCaVersion := DEFAULT_FABRIC, DEFAULT_CA;
      positionals, positionalsCount := [], 0;
      argComp := [Some("")];
    }

    function Collected(): Options
      reads this
    {
      Options(argFabricVersion, argCaVersion, positionals, positionalsCount)
    }

    method ParseCommandline(args: seq<string>) returns (exit: Option<Outcome>)
      modifies this`argFabricVersion, this`argCaVersion, this`positionals, this`positionalsCount
      ensures match Parse(old(Collected()).(positionalsCount := 0), args)
              case Parsed(o) => exit == None && Collected() == o
              case MissingValue(key) => exit == Some(Died(key))
              case Help => exit == Some(ShowedHelp)
    {
      positionalsCount := 0;
      var rest := args;
      while |rest| > 0
        invariant Parse(Collected(), rest) == Parse(old(Collected()).(positionalsCount := 0), args)
        decreases |rest|
      {
        var key := rest[0];
        match Classify(key) {
          case Takes(which) =>
            if |rest| < 2 {
              return Some(Died(key));
            }
            assert rest[1..][1..] == rest[2..];
            Record(which, rest[1]);
            rest := rest[1..];
          case Gives(which, value) =>
            Record(which, value);
          case AsksHelp =>
            return Some(ShowedHelp);
          case Positional =>
            positionals := positionals + [key];
            positionalsCount := positionalsCount + 1;
        }
        rest := rest[1..];
      }
      exit := None;
    }

    method Record(which: Which, value: string)
      modifies this`argFabricVersion, this`argCaVersion
      ensures Collected() == SetVersion(old(Collected()), which, value)
    {
      match which
      case Fabric => argFabricVersion := value;
      case Ca => argCaVersion := value;
    }

    // The first loop: the text of slot names, read back as words.
    method NameSlots() returns (names: seq<string>)
      ensures names == SlotNames(if positionals == [] then 1 else |positionals|)
    {
      var positionalNames := ARRAY_NAME + " ";
      var ourArgs := |positionals| - 1;
      var ii := 0;
      while ii < ourArgs
        invariant 0 <= ii && (ii <= ourArgs || ii == 0)
        invariant positionalNames == NamesText(ii)
      {
        positionalNames := positionalNames + " " + SlotName(ii + 1);
        ii := ii + 1;
      }
      NamesTextSplits(ii);
      names := Split(positionalNames, BLANKS);
    }

    // Afterwards the array holds the positional arguments, element for element, over whatever it held;
    // without positional arguments it is left alone.
    method AssignPositionalArgs()
      modifies this`argComp
      ensures |argComp| == if |positionals| > |old(argComp)| then |positionals| else |old(argComp)|
      ensures forall i :: 0 <= i < |argComp| ==>
                argComp[i] == if i < |positionals| then Some(positionals[i]) else old(argComp)[i]
    {
      var names := NameSlots();
      var k := 0;
      while k < |names|
        invariant 0 <= k <= |positionals|
        invariant |argComp| == if k > |old(argComp)| then k else |old(argComp)|
        invariant forall i :: 0 <= i < |argComp| ==>
                    argComp[i] == if i < k then Some(positionals[i]) else old(argComp)[i]
      {
        if k == |positionals| {
          break;
        }
        SlotIndexOfName(k);
        argComp := Assign(argComp, SlotIndex(names[k]).value, positionals[k]);
        k := k + 1;
      }
    }

    // The main code from the default on.
    method ChooseActions(given: seq<string>) returns (actions: seq<Action>)
      ensures actions == ActionsFor(given)
    {
      var components := given;
      if Joined(components) == "" {
        components := EVERYTHING;
      }
      var samples := Wants(components, Samples);
      var binary := Wants(components, Binary);
      var podman := Wants(components, Podman);
      var docker := Wants(components, Docker);
      actions := Enlist(samples, binary, podman, docker);
    }

    method Enlist(samples: bool, binary: bool, podman: bool, docker: bool) returns (actions: seq<Action>)
      ensures actions == ActionList(samples, binary, podman, docker)
    {
      actions := [];
      if samples {
        actions := actions + [CloneSamples];
      }
      if binary {
        actions := actions + [PullBinaries];
      }
      if podman {
        actions := actions + [PullPodmanImages];
      }
      if docker {
        actions := actions + [PullDockerImages];
      }
    }

    method Install(args: seq<string>) returns (outcome: Outcome)
      requires Collected() == DEFAULTS && argComp == [Some("")]
      modifies this
      ensures outcome == Expected(args)
    {
      var exit := ParseCommandline(args);
      if exit.Some? {
        return exit.value;
      }
      AssignPositionalArgs();
      var components := Elements(argComp);
      AssignedIsGiven(Collected(), argComp);
      var version := argFabricVersion;
      var machineTags, amdOnDarwin := Opens(version, 1, 1), Opens(version, 2, 4);
      GateOpens(version, 1, 1);
      GateOpens(version, 2, 4);
      var actions := ChooseActions(components);
      return Plan(version, argCaVersion, machineTags, amdOnDarwin, actions);
    }
  }

  lemma {:induction false} AssignedIsGiven(o: Options, slots: Slots)
    requires |slots| == if o.positionals == [] then 1 else |o.positionals|
    requires forall i :: 0 <= i < |slots| ==> slots[i] == Some(if o.positionals == [] then "" else o.positionals[i])
    ensures Elements(slots) == ComponentsGiven(o)
  {
    assert slots == Filled(ComponentsGiven(o));
    ElementsFilled(ComponentsGiven(o));
  }

  method Wants(components: seq<string>, target: Target) returns (wanted: bool)
    ensures wanted <==> Selected(components, target)
  {
    SelectorFindsWord(Letter(target), Word(target)[1..], Joined(components));
    wanted := FindsStart(Joined(components), Letter(target), 0);
  }

  // ---- The actions ----

  // The order of the script: samples, binaries, podman images, docker images.
  predicate Before(a: Action, b: Action) {
    match a
    case CloneSamples => b in {PullBinaries, PullPodmanImages, PullDockerImages}
    case PullBinaries => b in {PullPodmanImages, PullDockerImages}
    case PullPodmanImages => b == PullDockerImages
    case PullDockerImages => false
  }

  lemma {:induction false} ListedActions(samples: bool, binary: bool, podman: bool, docker: bool)
    ensures var actions := ActionList(samples, binary, podman, docker);
            && (CloneSamples in actions <==> samples) && (PullBinaries in actions <==> binary)
            && (PullPodmanImages in actions <==> podman) && (PullDockerImages in actions <==> docker)
  {
  }

  lemma {:induction false} ListedInOrder(samples: bool, binary: bool, podman: bool, docker: bool)
    ensures var actions := ActionList(samples, binary, podman, docker);
            forall i, j :: 0 <= i < j < |actions| ==> Before(actions[i], actions[j])
  {
  }

  // Each action is taken exactly if its target is selected, at most once, and in the script's order.
  lemma {:induction false} ActionsAreSelected(components: seq<string>)
    ensures CloneSamples in ActionsFor(components) <==> Selected(Effective(components), Samples)
    ensures PullBinaries in ActionsFor(components) <==> Selected(Effective(components), Binary)
    ensures PullPodmanImages in ActionsFor(components) <==> Selected(Effective(components), Podman)
    ensures PullDockerImages in ActionsFor(components) <==> Selected(Effective(components), Docker)
    ensures forall i, j :: 0 <= i < j < |ActionsFor(components)| ==>
              Before(ActionsFor(components)[i], ActionsFor(components)[j])
  {
    var chosen := Effective(components);
    ListedActions(Selected(chosen, Samples), Selected(chosen, Binary), Selected(chosen, Podman), Selected(chosen, Docker));
    ListedInOrder(Selected(chosen, Samples), Selected(chosen, Binary), Selected(chosen, Podman), Selected(chosen, Docker));
  }

  // ---- What the choice depends on ----

  // The order and the repetition of the components matter in one case only: a single empty argument
  // stands for the default, several of them for nothing.
  lemma {:induction false} ActionsBySet(a: seq<string>, b: seq<string>)
    requires forall x :: x in a <==> x in b
    ensures ActionsFor(a) == ActionsFor(b) <==> (a == [""] <==> b == [""])
  {
    EffectiveIs(a);
    EffectiveIs(b);
    SameSetEmpty(a, b);
    if a == [""] && b != [""] {
      OnlyBlanks(b);
      DefaultActions(a);
    } else if a != [""] && b == [""] {
      OnlyBlanks(a);
      DefaultActions(b);
    } else {
      SelectedEverywhere(Effective(a), Effective(b));
    }
  }

  lemma {:induction false} EffectiveIs(components: seq<string>)
    ensures Effective(components) == if components == [] || components == [""] then EVERYTHING else components
  {
    DefaultCondition(components);
    EmptyTextOnly(Joined(components));
  }

  lemma {:induction false} SameSetEmpty(a: seq<string>, b: seq<string>)
    requires forall x :: x in a <==> x in b
    ensures a == [] <==> b == []
    ensures a == [""] ==> forall x :: x in b ==> x == ""
    ensures b == [""] ==> forall x :: x in a ==> x == ""
  {
    assert a != [] ==> a[0] in a;
    assert b != [] ==> b[0] in b;
  }

  lemma {:induction false} SelectedEverywhere(a: seq<string>, b: seq<string>)
    requires forall x :: x in a <==> x in b
    ensures forall target :: Selected(a, target) <==> Selected(b, target)
  {
    forall target ensures Selected(a, target) <==> Selected(b, target) { SelectedBySet(a, b, target); }
  }

  // With nothing to choose from, or one empty argument: samples, binaries and docker images.
  lemma {:induction false} DefaultActions(components: seq<string>)
    requires components == [] || components == [""]
    ensures ActionsFor(components) == [CloneSamples, PullBinaries, PullDockerImages]
  {
    EffectiveIs(components);
    DefaultSelects(Samples);
    DefaultSelects(Binary);
    DefaultSelects(Podman);
    DefaultSelects(Docker);
  }

  lemma {:induction false} OnlyBlanks(a: seq<string>)
    requires a != [] && a != [""] && forall x :: x in a ==> x == ""
    ensures ActionsFor(a) == []
  {
    EffectiveIs(a);
    forall target ensures !Selected(a, target) { BlanksSelectNothing(a, target); }
  }

  lemma {:induction false} BlanksSelectNothing(a: seq<string>, target: Target)
    requires forall x :: x in a ==> x == ""
    ensures !Selected(a, target)
  {
    SelectedPerComponent(a, target);
    forall i | 0 <= i < |a| ensures !NamedBy(a[i], target) { assert a[i] in a; }
  }

  // One empty argument and two of them are not the same thing.
  lemma {:induction false} EmptyArgumentsDiffer()
    ensures ActionsFor(["", ""]) == [] && ActionsFor([""]) != []
  {
    OnlyBlanks(["", ""]);
    DefaultActions([""]);
  }

  // ---- What the usage text promises ----

  // The default if no component is specified, and otherwise the targets that are named.
  ghost function PromisedActions(components: seq<string>): seq<Action> {
    if components == [] || components == [""] then [CloneSamples, PullBinaries, PullDockerImages]
    else ActionList(NamedAmong(components, Samples), NamedAmong(components, Binary),
                    NamedAmong(components, Podman), NamedAmong(components, Docker))
  }

  lemma {:induction false} ActionListInjective(s: bool, b: bool, p: bool, d: bool, s': bool, b': bool, p': bool, d': bool)
    requires ActionList(s, b, p, d) == ActionList(s', b', p', d')
    ensures s == s' && b == b' && p == p' && d == d'
  {
    ListedActions(s, b, p, d);
    ListedActions(s', b', p', d');
  }

  lemma {:induction false} SpecifiedActions(components: seq<string>)
    requires components != [] && components != [""]
    ensures ActionsFor(components) == PromisedActions(components) <==>
            forall target :: Selected(components, target) <==> NamedAmong(components, target)
  {
    EffectiveIs(components);
    var s, b, p, d := Selected(components, Samples), Selected(components, Binary),
                      Selected(components, Podman), Selected(components, Docker);
    var s', b', p', d' := NamedAmong(components, Samples), NamedAmong(components, Binary),
                          NamedAmong(components, Podman), NamedAmong(components, Docker);
    if ActionList(s, b, p, d) == ActionList(s', b', p', d') {
      ActionListInjective(s, b, p, d, s', b', p', d');
      forall target ensures Selected(components, target) <==> NamedAmong(components, target) {
        match target
        case Samples =>
        case Binary =>
        case Podman =>
        case Docker =>
      }
    }
  }

  lemma {:induction false} UnspecifiedActions(components: seq<string>)
    requires components == [] || components == [""]
    ensures ActionsFor(components) == PromisedActions(components) && OnlyNamedSelected(components)
  {
    DefaultActions(components);
    forall i, target | 0 <= i < |components| ensures !NamedBy(components[i], target) { BlankNamesNothing(target); }
  }

  lemma {:induction false} BlankNamesNothing(target: Target)
    ensures !NamedBy("", target)
  {
  }

  // The installer does what the usage text promises if and only if no undocumented component selects
  // something that is not named.
  lemma {:induction false} ActionsAsPromised(components: seq<string>)
    ensures ActionsFor(components) == PromisedActions(components) <==> OnlyNamedSelected(components)
  {
    if components == [] || components == [""] {
      UnspecifiedActions(components);
    } else {
      SpecifiedActions(components);
      SelectionAsDocumented(components);
    }
  }

  // ---- The installer as a whole ----

  lemma {:induction false} ExpectedOfRendered(items: seq<Item>) returns (o: Options)
    requires AllWellFormed(items)
    ensures Expected(RenderAll(items)) == PlanOf(o)
    ensures o.fabricVersion == LastVersion(items, Fabric, DEFAULT_FABRIC)
    ensures o.caVersion == LastVersion(items, Ca, DEFAULT_CA)
    ensures o.positionals == Components(items)
  {
    ParseRendered(DEFAULTS, items, AtEnd);
    assert RenderAll(items) + RenderStop(AtEnd) == RenderAll(items);
    assert [] + Components(items) == Components(items);
    o := Meaning(DEFAULTS, items);
  }

  // Which version makes the installer fall back on which older name, for any arguments that parse.
  lemma {:induction false} NamingDecisions(items: seq<Item>)
    requires AllWellFormed(items)
    ensures var v, outcome := LastVersion(items, Fabric, DEFAULT_FABRIC), Expected(RenderAll(items));
            && outcome.Plan?
            && (outcome.machineTags <==> |v| >= 3 && v[0] == '1' && v[1] == '.' && v[2] in {'0', '1'})
            && (outcome.amdOnDarwin <==> |v| >= 3 && v[0] == '2' && v[1] == '.' && '0' <= v[2] <= '4')
  {
    var o := ExpectedOfRendered(items);
    GateOpens(o.fabricVersion, 1, 1);
    GateOpens(o.fabricVersion, 2, 4);
  }

  // On versions written as numbers: which releases get machine tags, and which the amd64 binaries.
  lemma {:induction false} NamingByNumbers(items: seq<Item>, major: nat, minor: nat, rest: string)
    requires AllWellFormed(items)
    requires rest == "" || !Decimal.IsDigit(rest[0])
    requires LastVersion(items, Fabric, DEFAULT_FABRIC) == Decimal.OfNat(major) + "." + Decimal.OfNat(minor) + rest
    ensures var outcome := Expected(RenderAll(items));
            && outcome.Plan?
            && (outcome.machineTags <==> major == 1 && Decimal.LeadingDigit(minor) <= 1)
            && (outcome.amdOnDarwin <==> major == 2 && Decimal.LeadingDigit(minor) <= 4)
  {
    var o := ExpectedOfRendered(items);
    GateOpens(o.fabricVersion, 1, 1);
    GateOpens(o.fabricVersion, 2, 4);
    GateOnNumbers(1, 1, major, minor, rest);
    GateOnNumbers(2, 4, major, minor, rest);
  }

  // How the script ends, for every argument list: by the way it reads.
  lemma {:induction false} EndsByReading(args: seq<string>, items: seq<Item>, stop: Stop)
    requires Reads(args, items, stop)
    ensures match stop
            case AtBareOption(key) => Expected(args) == Died(key)
            case AtHelp(_, _) => Expected(args) == ShowedHelp
            case AtEnd => Expected(args).Plan?
  {
    UniqueReading(DEFAULTS, args);
  }

  lemma {:induction false} NoArguments()
    ensures Expected([]) == Plan("2.5.9", "1.5.12", false, false, [CloneSamples, PullBinaries, PullDockerImages])
  {
    DefaultActions([""]);
    GateOpens("2.5.9", 1, 1);
    GateOpens("2.5.9", 2, 4);
  }

  ghost predicate Installs(outcome: Outcome, fabricVersion: string, caVersion: string, actions: seq<Action>) {
    && outcome.Plan?
    && outcome.fabricVersion == fabricVersion
    && outcome.caVersion == caVersion
    && outcome.actions == actions
  }

  // Versions and documented component names, written in any order and any mix of spellings: the
  // last version of each kind is used, and exactly the named targets are installed; the default, when
  // no component is named.
  lemma {:induction false} InstallsWhatIsNamed(items: seq<Item>, targets: seq<Target>)
    requires AllWellFormed(items) && |Components(items)| == |targets|
    requires forall i :: 0 <= i < |targets| ==> Names(Components(items)[i], targets[i])
    ensures Installs(Expected(RenderAll(items)), LastVersion(items, Fabric, DEFAULT_FABRIC), LastVersion(items, Ca, DEFAULT_CA),
                     if targets == [] then [CloneSamples, PullBinaries, PullDockerImages]
                     else ActionList(Samples in targets, Binary in targets, Podman in targets, Docker in targets))
  {
    var o := ExpectedOfRendered(items);
    if targets == [] {
      DefaultActions([""]);
    } else {
      ActionsOfNamed(Components(items), targets);
    }
  }

  lemma {:induction false} ActionsOfNamed(texts: seq<string>, targets: seq<Target>)
    requires |texts| == |targets| > 0
    requires forall i :: 0 <= i < |texts| ==> Names(texts[i], targets[i])
    ensures ActionsFor(texts) == ActionList(Samples in targets, Binary in targets, Podman in targets, Docker in targets)
  {
    NameNotEmpty(texts[0], targets[0]);
    EffectiveIs(texts);
    NamedEverywhere(texts, targets);
    ActionsOfSelected(texts, targets);
  }

  lemma {:induction false} NameNotEmpty(text: string, target: Target)
    requires Names(text, target)
    ensures text != ""
  {
  }

  lemma {:induction false} ActionsOfSelected(texts: seq<string>, targets: seq<Target>)
    requires Effective(texts) == texts
    requires forall target :: Selected(texts, target) <==> target in targets
    ensures ActionsFor(texts) == ActionList(Samples in targets, Binary in targets, Podman in targets, Docker in targets)
  {
  }

  lemma {:induction false} NamedEverywhere(texts: seq<string>, targets: seq<Target>)
    requires |texts| == |targets|
    requires forall i :: 0 <= i < |texts| ==> Names(texts[i], targets[i])
    ensures forall target :: Selected(texts, target) <==> target in targets
  {
    forall target ensures Selected(texts, target) <==> target in targets { DocumentedNames(texts, targets, target); }
  }
}
