/**
 The installer's command line. The parser is stated twice: as the shift-based walk over the arguments,
 and as a grammar of option spellings, in which every argument list reads in exactly one way.
 */
module CommandLine {
  import opened Wrappers

  const DEFAULT_FABRIC := "2.5.9"
  const DEFAULT_CA := "1.5.12"

  datatype Options = Options(fabricVersion: string, caVersion: string, positionals: seq<string>, positionalsCount: int)

  const DEFAULTS := Options(DEFAULT_FABRIC, DEFAULT_CA, [], 0)

  datatype Parsed =
    | Parsed(options: Options)
    | MissingValue(key: string)   // "Missing value for the optional argument ...", exit status 1
    | Help                        // usage printed, exit status 0

  datatype Which = Fabric | Ca

  function ShortName(which: Which): string { if which.Fabric? then "-f" else "-c" }

  function LongName(which: Which): string { if which.Fabric? then "--fabric-version" else "--ca-version" }

  function SetVersion(o: Options, which: Which, value: string): Options {
    if which.Fabric? then o.(fabricVersion := value) else o.(caVersion := value)
  }

  function AddPositional(o: Options, text: string): Options {
    o.(positionals := o.positionals + [text], positionalsCount := o.positionalsCount + 1)
  }

  // ---- The walk ----

  // What one argument is, by the patterns in the order they are tried.
  datatype Kind = Takes(which: Which) | Gives(which: Which, value: string) | AsksHelp | Positional

  function Classify(key: string): Kind {
    if key == "-f" || key == "--fabric-version" then Takes(Fabric)
    else if "--fabric-version=" <= key then Gives(Fabric, key[|"--fabric-version="|..])
    else if "-f" <= key then Gives(Fabric, key[2..])
    else if key == "-c" || key == "--ca-version" then Takes(Ca)
    else if key == "-h" || key == "--help" then AsksHelp
    else if "-h" <= key then AsksHelp
    else if "--ca-version=" <= key then Gives(Ca, key[|"--ca-version="|..])
    else if "-c" <= key then Gives(Ca, key[2..])
    else Positional
  }

  function Parse(o: Options, args: seq<string>): Parsed
    decreases |args|
  {
    if args == [] then Parsed(o)
    else
      match Classify(args[0])
      case Takes(which) =>
        if |args| < 2 then MissingValue(args[0]) else Parse(SetVersion(o, which, args[1]), args[2..])
      case Gives(which, value) => Parse(SetVersion(o, which, value), args[1..])
      case AsksHelp => Help
      case Positional => Parse(AddPositional(o, args[0]), args[1..])
  }

  // ---- The grammar ----

  datatype Spelling = ShortApart | LongApart | LongAttached | ShortAttached

  datatype Item = Version(which: Which, spelling: Spelling, value: string) | Component(text: string)

  predicate IsHelp(key: string) { key == "--help" || "-h" <= key }

  predicate IsBareOption(key: string) { key in {"-f", "--fabric-version", "-c", "--ca-version"} }

  predicate OptionLike(key: string) {
    || IsHelp(key)
    || exists which: Which :: ShortName(which) <= key || key == LongName(which) || LongName(which) + "=" <= key
  }

  // A value that follows its option immediately may be anything; the short attached form needs one.
  predicate WellFormed(item: Item) {
    match item
    case Version(_, spelling, value) => spelling.ShortAttached? ==> value != ""
    case Component(text) => !OptionLike(text)
  }

  predicate AllWellFormed(items: seq<Item>) { forall i :: 0 <= i < |items| ==> WellFormed(items[i]) }

  function Render(item: Item): (args: seq<string>)
    ensures args != []
  {
    match item
    case Version(which, ShortApart, value) => [ShortName(which), value]
    case Version(which, LongApart, value) => [LongName(which), value]
    case Version(which, LongAttached, value) => [LongName(which) + "=" + value]
    case Version(which, ShortAttached, value) => [ShortName(which) + value]
    case Component(text) => [text]
  }

  function RenderAll(items: seq<Item>): seq<string> {
    if items == [] then [] else Render(items[0]) + RenderAll(items[1..])
  }

  // Where the reading of the items stops: at the end, at an option whose value is missing, or at a
  // request for help, with whatever follows it.
  datatype Stop = AtEnd | AtBareOption(key: string) | AtHelp(key: string, unread: seq<string>)

  predicate StopWellFormed(stop: Stop) {
    match stop
    case AtEnd => true
    case AtBareOption(key) => IsBareOption(key)
    case AtHelp(key, _) => IsHelp(key)
  }

  function RenderStop(stop: Stop): seq<string> {
    match stop
    case AtEnd => []
    case AtBareOption(key) => [key]
    case AtHelp(key, unread) => [key] + unread
  }

  datatype Reading = Reading(items: seq<Item>, stop: Stop)

  // ---- Classification agrees with the spellings ----

  lemma {:induction false} ClassifyBare(which: Which)
    ensures Classify(ShortName(which)) == Takes(which) && Classify(LongName(which)) == Takes(which)
  {
  }

  lemma {:induction false} ClassifyLongAttached(which: Which, value: string)
    ensures Classify(LongName(which) + "=" + value) == Gives(which, value)
    ensures (LongName(which) + "=" + value)[1] == '-'
  {
    var key := LongName(which) + "=" + value;
    assert key[..|LongName(which)| + 1] == LongName(which) + "=";
    assert key[|LongName(which)| + 1..] == value;
    assert key[1] == '-';
    assert key[|LongName(which)|] == '=';
  }

  lemma {:induction false} ClassifyShortAttached(which: Which, value: string)
    requires value != ""
    ensures Classify(ShortName(which) + value) == Gives(which, value)
    ensures (ShortName(which) + value)[1] != '-'
  {
    var key := ShortName(which) + value;
    assert key[..2] == ShortName(which) && key[2..] == value;
    assert key[1] == ShortName(which)[1];
  }

  lemma {:induction false} ClassifyHelp(key: string)
    ensures Classify(key) == AsksHelp <==> IsHelp(key)
  {
    assert "-h" <= key ==> key[1] == 'h';
    assert "-f" <= key ==> key[1] == 'f';
    assert "-c" <= key ==> key[1] == 'c';
    assert "--fabric-version=" <= key || "--ca-version=" <= key ==> key[1] == '-' && key[2] != 'h';
    assert key == "--help" ==> key[1] == '-' && key[2] == 'h';
  }

  lemma {:induction false} ClassifyBareOnly(key: string)
    ensures IsBareOption(key) <==> Classify(key).Takes?
  {
    ClassifyBare(Fabric);
    ClassifyBare(Ca);
  }

  lemma {:induction false} ClassifyPositional(key: string)
    ensures Classify(key) == Positional <==> !OptionLike(key)
  {
    ClassifyHelp(key);
    assert ShortName(Fabric) == "-f" && ShortName(Ca) == "-c";
    assert LongName(Fabric) + "=" == "--fabric-version=" && LongName(Ca) + "=" == "--ca-version=";
  }

  // The reverse: what an argument is called tells how it was spelled.
  lemma {:induction false} ClassifiedSpelling(key: string)
    ensures match Classify(key)
            case Takes(which) => key == ShortName(which) || key == LongName(which)
            case Gives(which, value) =>
              |key| >= 2 &&
              if key[1] == '-' then key == LongName(which) + "=" + value else key == ShortName(which) + value && value != ""
            case AsksHelp => true
            case Positional => true
  {
  }

  // ---- The reading of an argument list ----

  // The item the arguments begin with, if they begin with one.
  function FirstItem(args: seq<string>): (item: Option<Item>)
    requires args != []
    ensures item.Some? ==> WellFormed(item.value) && Render(item.value) <= args
    ensures item.None? ==> IsHelp(args[0]) || (IsBareOption(args[0]) && |args| == 1)
  {
    var key := args[0];
    ClassifiedSpelling(key);
    match Classify(key)
    case Takes(which) =>
      if |args| < 2 then None
      else
        var item := Version(which, if key == ShortName(which) then ShortApart else LongApart, args[1]);
        assert Render(item) == args[..2];
        Some(item)
    case Gives(which, value) =>
      var item := Version(which, if key[1] == '-' then LongAttached else ShortAttached, value);
      assert Render(item) == args[..1];
      Some(item)
    case AsksHelp => ClassifyHelp(key); None
    case Positional =>
      ClassifyPositional(key);
      assert Render(Component(key)) == args[..1];
      Some(Component(key))
  }

  function ReadArgs(args: seq<string>): Reading
    decreases |args|
  {
    if args == [] then Reading([], AtEnd)
    else
      match FirstItem(args)
      case Some(item) =>
        var rest := ReadArgs(args[|Render(item)|..]);
        Reading([item] + rest.items, rest.stop)
      case None => Reading([], if IsHelp(args[0]) then AtHelp(args[0], args[1..]) else AtBareOption(args[0]))
  }

  // ---- What the items mean: the last version of each kind, and the components in order ----

  function LastVersion(items: seq<Item>, which: Which, default: string): string {
    if items == [] then default
    else
      var last := items[|items| - 1];
      if last.Version? && last.which == which then last.value
      else LastVersion(items[..|items| - 1], which, default)
  }

  function Components(items: seq<Item>): seq<string> {
    if items == [] then []
    else (if items[0].Component? then [items[0].text] else []) + Components(items[1..])
  }

  function Apply(o: Options, item: Item): Options {
    match item
    case Version(which, _, value) => SetVersion(o, which, value)
    case Component(text) => AddPositional(o, text)
  }

  function Meaning(o: Options, items: seq<Item>): Options {
    Options(LastVersion(items, Fabric, o.fabricVersion), LastVersion(items, Ca, o.caVersion),
            o.positionals + Components(items), o.positionalsCount + |Components(items)|)
  }

  function Result(o: Options, reading: Reading): Parsed {
    match reading.stop
    case AtEnd => Parsed(Meaning(o, reading.items))
    case AtBareOption(key) => MissingValue(key)
    case AtHelp(_, _) => Help
  }

  // ---- Every argument list reads as items and a stop, in exactly one way ----

  lemma {:induction false} RenderFirst(item: Item, items: seq<Item>, tail: seq<string>)
    ensures RenderAll([item] + items) + tail == Render(item) + (RenderAll(items) + tail)
  {
    assert ([item] + items)[1..] == items;
  }

  lemma {:induction false} ReadArgsSound(args: seq<string>)
    ensures var r := ReadArgs(args);
            AllWellFormed(r.items) && StopWellFormed(r.stop) && RenderAll(r.items) + RenderStop(r.stop) == args
    decreases |args|
  {
    if args == [] {
    } else {
      var first := FirstItem(args);
      if first.Some? {
        var n := |Render(first.value)|;
        var rest := ReadArgs(args[n..]);
        ReadArgsSound(args[n..]);
        RenderFirst(first.value, rest.items, RenderStop(rest.stop));
        assert args == args[..n] + args[n..];
      } else {
        assert args == [args[0]] + args[1..];
      }
    }
  }

  lemma {:induction false} FirstOfRendered(item: Item, rest: seq<string>)
    requires WellFormed(item)
    ensures FirstItem(Render(item) + rest) == Some(item)
  {
    var args := Render(item) + rest;
    match item
    case Version(which, spelling, value) =>
      ClassifyBare(which);
      match spelling {
        case LongAttached => ClassifyLongAttached(which, value);
        case ShortAttached => ClassifyShortAttached(which, value);
        case _ => assert args[1] == value;
      }
    case Component(text) => ClassifyPositional(text);
  }

  lemma {:induction false} ReadOneItem(item: Item, rest: seq<string>)
    requires WellFormed(item)
    ensures ReadArgs(Render(item) + rest) == var r := ReadArgs(rest); Reading([item] + r.items, r.stop)
  {
    FirstOfRendered(item, rest);
    assert (Render(item) + rest)[|Render(item)|..] == rest;
  }

  lemma {:induction false} ReadStop(stop: Stop)
    requires StopWellFormed(stop)
    ensures ReadArgs(RenderStop(stop)) == Reading([], stop)
  {
    match stop
    case AtEnd =>
    case AtBareOption(key) => ClassifyBareOnly(key); ClassifyHelp(key);
    case AtHelp(key, unread) =>
      ClassifyHelp(key);
      assert ([key] + unread)[1..] == unread;
  }

  lemma {:induction false} ReadArgsComplete(items: seq<Item>, stop: Stop)
    requires AllWellFormed(items) && StopWellFormed(stop)
    ensures ReadArgs(RenderAll(items) + RenderStop(stop)) == Reading(items, stop)
  {
    if items == [] {
      assert RenderAll(items) + RenderStop(stop) == RenderStop(stop);
      ReadStop(stop);
    } else {
      var rest := RenderAll(items[1..]) + RenderStop(stop);
      assert RenderAll(items) + RenderStop(stop) == Render(items[0]) + rest;
      ReadOneItem(items[0], rest);
      ReadArgsComplete(items[1..], stop);
      assert items == [items[0]] + items[1..];
    }
  }

  // ---- The walk computes the meaning ----

  lemma {:induction false} LastVersionFirst(item: Item, rest: seq<Item>, which: Which, default: string)
    ensures LastVersion([item] + rest, which, default) ==
            LastVersion(rest, which, if item.Version? && item.which == which then item.value else default)
    decreases |rest|
  {
    var items := [item] + rest;
    if rest == [] {
      assert items[..|items| - 1] == [];
    } else {
      assert items[..|items| - 1] == [item] + rest[..|rest| - 1];
      LastVersionFirst(item, rest[..|rest| - 1], which, default);
    }
  }

  lemma {:induction false} ComponentsFirst(item: Item, rest: seq<Item>)
    ensures Components([item] + rest) == (if item.Component? then [item.text] else []) + Components(rest)
  {
    assert ([item] + rest)[1..] == rest;
  }

  lemma {:induction false} MeaningFirst(o: Options, item: Item, rest: seq<Item>)
    ensures Meaning(o, [item] + rest) == Meaning(Apply(o, item), rest)
  {
    LastVersionFirst(item, rest, Fabric, o.fabricVersion);
    LastVersionFirst(item, rest, Ca, o.caVersion);
    ComponentsFirst(item, rest);
    var own := if item.Component? then [item.text] else [];
    assert o.positionals + (own + Components(rest)) == o.positionals + own + Components(rest);
    assert o.positionals + [] == o.positionals;
  }

  // One round of the walk consumes the first item, or ends the walk.
  lemma {:induction false} ParseFirst(o: Options, args: seq<string>)
    requires args != []
    ensures Parse(o, args) ==
            match FirstItem(args)
            case Some(item) => Parse(Apply(o, item), args[|Render(item)|..])
            case None => if IsHelp(args[0]) then Help else MissingValue(args[0])
  {
    ClassifyHelp(args[0]);
  }

  // For every argument list: the walk ends as the reading stops, and what it collects is the last
  // version of each kind and the components in order.
  lemma {:induction false} ParseIsMeaning(o: Options, args: seq<string>)
    ensures Parse(o, args) == Result(o, ReadArgs(args))
    decreases |args|
  {
    if args == [] {
      assert o.positionals + [] == o.positionals;
    } else {
      ParseFirst(o, args);
      if FirstItem(args).Some? {
        var item := FirstItem(args).value;
        var rest := args[|Render(item)|..];
        ParseIsMeaning(Apply(o, item), rest);
        MeaningFirst(o, item, ReadArgs(rest).items);
      }
    }
  }

  // Writing versions and components in any order and any mix of spellings, and parsing them, gives
  // back the last version of each kind and exactly the components, in order; a bare option at the
  // end, or a request for help anywhere, is reported as such.
  lemma {:induction false} ParseRendered(o: Options, items: seq<Item>, stop: Stop)
    requires AllWellFormed(items) && StopWellFormed(stop)
    ensures Parse(o, RenderAll(items) + RenderStop(stop)) == Result(o, Reading(items, stop))
  {
    ReadArgsComplete(items, stop);
    ParseIsMeaning(o, RenderAll(items) + RenderStop(stop));
  }

  ghost predicate Reads(args: seq<string>, items: seq<Item>, stop: Stop) {
    AllWellFormed(items) && StopWellFormed(stop) && args == RenderAll(items) + RenderStop(stop)
  }

  // Every argument list is items followed by a stop in exactly one way, and that way decides what
  // parsing it yields.
  lemma {:induction false} UniqueReading(o: Options, args: seq<string>)
    ensures exists items, stop :: Reads(args, items, stop)
    ensures forall items, stop :: Reads(args, items, stop) ==>
              ReadArgs(args) == Reading(items, stop) && Parse(o, args) == Result(o, Reading(items, stop))
  {
    ReadArgsSound(args);
    assert Reads(args, ReadArgs(args).items, ReadArgs(args).stop);
    forall items, stop | Reads(args, items, stop)
      ensures ReadArgs(args) == Reading(items, stop) && Parse(o, args) == Result(o, Reading(items, stop))
    {
      ReadArgsComplete(items, stop);
      ParseIsMeaning(o, args);
    }
  }

  // ---- Composition ----

  lemma {:induction false} FirstItemExtends(args: seq<string>, more: seq<string>)
    requires args != [] && FirstItem(args).Some?
    ensures FirstItem(args + more) == FirstItem(args)
    ensures var n := |Render(FirstItem(args).value)|; (args + more)[n..] == args[n..] + more
  {
    var item := FirstItem(args).value;
    var n := |Render(item)|;
    assert args == Render(item) + args[n..];
    assert args + more == Render(item) + (args[n..] + more);
    FirstOfRendered(item, args[n..] + more);
  }

  // Arguments that parse can be followed by any others: parsing goes on from the options they leave.
  lemma {:induction false} ParseConcat(o: Options, a: seq<string>, b: seq<string>)
    requires Parse(o, a).Parsed?
    ensures Parse(o, a + b) == Parse(Parse(o, a).options, b)
    decreases |a|
  {
    if a == [] {
      assert a + b == b;
    } else {
      ParseFirst(o, a);
      ParseFirst(o, a + b);
      assert (a + b)[0] == a[0];
      var item := FirstItem(a).value;
      FirstItemExtends(a, b);
      ParseConcat(Apply(o, item), a[|Render(item)|..], b);
    }
  }

  // A request for help ends the parsing, whatever follows.
  lemma {:induction false} HelpIsFinal(o: Options, a: seq<string>, b: seq<string>)
    requires Parse(o, a) == Help
    ensures Parse(o, a + b) == Help
    decreases |a|
  {
    ParseFirst(o, a);
    ParseFirst(o, a + b);
    assert (a + b)[0] == a[0];
    if FirstItem(a).Some? {
      var item := FirstItem(a).value;
      FirstItemExtends(a, b);
      HelpIsFinal(Apply(o, item), a[|Render(item)|..], b);
    } else {
      ClassifyHelp(a[0]);
    }
  }

  // A missing value is one only at the very end: whatever comes next becomes the value.
  lemma {:induction false} MissingValueIsSupplied(o: Options, a: seq<string>, value: string) returns (o': Options, which: Which)
    requires Parse(o, a).MissingValue?
    ensures Parse(o, a).key in {ShortName(which), LongName(which)}
    ensures Parse(o, a[..|a| - 1]) == Parsed(o')
    ensures Parse(o, a + [value]) == Parsed(SetVersion(o', which, value))
  {
    var r := ReadArgs(a);
    ReadArgsSound(a);
    ParseIsMeaning(o, a);
    var key := r.stop.key;
    var front := RenderAll(r.items);
    assert a == front + [key] && a[..|a| - 1] == front;
    ParseRendered(o, r.items, AtEnd);
    assert front + RenderStop(AtEnd) == front;
    o' := Meaning(o, r.items);
    which := if key in {ShortName(Fabric), LongName(Fabric)} then Fabric else Ca;
    assert a + [value] == front + [key, value];
    ParseConcat(o, front, [key, value]);
    ClassifyBare(which);
    assert [key, value][2..] == [];
  }

  // The counter always counts the positionals.
  lemma {:induction false} CountIsLength(o: Options, args: seq<string>)
    requires o.positionalsCount == |o.positionals|
    ensures Parse(o, args).Parsed? ==>
              var o' := Parse(o, args).options; o'.positionalsCount == |o'.positionals|
  {
    ParseIsMeaning(o, args);
  }

  // ---- The options as the usage text writes them ----

  lemma {:induction false} OneItem(o: Options, item: Item)
    requires WellFormed(item)
    ensures Parse(o, Render(item)) == Parsed(Apply(o, item))
  {
    FirstOfRendered(item, []);
    assert Render(item) + [] == Render(item);
    ParseFirst(o, Render(item));
    assert Render(item)[|Render(item)|..] == [];
  }

  // All four spellings of a version mean the same.
  lemma {:induction false} FabricSpellings(o: Options, v: string)
    ensures Parse(o, ["-f", v]) == Parsed(o.(fabricVersion := v))
    ensures Parse(o, ["--fabric-version", v]) == Parsed(o.(fabricVersion := v))
    ensures Parse(o, ["--fabric-version=" + v]) == Parsed(o.(fabricVersion := v))
    ensures v != "" ==> Parse(o, ["-f" + v]) == Parsed(o.(fabricVersion := v))
  {
    OneItem(o, Version(Fabric, ShortApart, v));
    OneItem(o, Version(Fabric, LongApart, v));
    OneItem(o, Version(Fabric, LongAttached, v));
    assert LongName(Fabric) + "=" == "--fabric-version=";
    if v != "" {
      OneItem(o, Version(Fabric, ShortAttached, v));
    }
  }

  lemma {:induction false} CaSpellings(o: Options, v: string)
    ensures Parse(o, ["-c", v]) == Parsed(o.(caVersion := v))
    ensures Parse(o, ["--ca-version", v]) == Parsed(o.(caVersion := v))
    ensures Parse(o, ["--ca-version=" + v]) == Parsed(o.(caVersion := v))
    ensures v != "" ==> Parse(o, ["-c" + v]) == Parsed(o.(caVersion := v))
  {
    OneItem(o, Version(Ca, ShortApart, v));
    OneItem(o, Version(Ca, LongApart, v));
    OneItem(o, Version(Ca, LongAttached, v));
    assert LongName(Ca) + "=" == "--ca-version=";
    if v != "" {
      OneItem(o, Version(Ca, ShortAttached, v));
    }
  }

  // On its own an argument asks for help, lacks its value, is an attached version, or is a component.
  lemma {:induction false} SingleArgument(o: Options, key: string)
    ensures Parse(o, [key]) == Help <==> key == "--help" || "-h" <= key
    ensures Parse(o, [key]) == MissingValue(key) <==> key in {"-f", "--fabric-version", "-c", "--ca-version"}
    ensures Parse(o, [key]) == Parsed(o.(positionals := o.positionals + [key], positionalsCount := o.positionalsCount + 1)) <==>
            !("-f" <= key || "-c" <= key || "-h" <= key || "--fabric-version=" <= key || "--ca-version=" <= key
              || key in {"--fabric-version", "--ca-version", "--help"})
  {
    ClassifyHelp(key);
    ClassifyBareOnly(key);
    ClassifyPositional(key);
    PositionalLiterally(key);
    assert [key][1..] == [];
    assert |o.positionals + [key]| != |o.positionals|;
  }

  lemma {:induction false} PositionalLiterally(key: string)
    ensures OptionLike(key) <==>
            ("-f" <= key || "-c" <= key || "-h" <= key || "--fabric-version=" <= key || "--ca-version=" <= key
              || key in {"--fabric-version", "--ca-version", "--help"})
  {
    assert ShortName(Fabric) == "-f" && ShortName(Ca) == "-c";
    assert LongName(Fabric) + "=" == "--fabric-version=" && LongName(Ca) + "=" == "--ca-version=";
  }
}
