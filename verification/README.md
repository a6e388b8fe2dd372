# Verification of the Fabric asset contract, the Fabric installer, the template pallet and the benchmark era

The project models four pieces of this repository and proves what they keep, over all inputs and all runs.

**The asset contract** (`interoperability_fabric.go`). Assets are stored as JSON, in UTF-8, under their IDs.

- `AssetJson.dfy` writes an asset down and reads it back the way Go's encoding/json does for this struct
  (RFC 8259, sections 4, 6 and 7): members in field order, 64-bit integers, every escape the encoder emits and
  every escape the decoder accepts, surrogate pairs included.
- `Utf8.dfy` turns that text into bytes and back, and shows that the order of keys by character is their order by byte.
- `Ledger.dfy` is the contract as a state machine: one transaction is one step over the world state, and which of
  its stub calls fail is part of the transaction. The encoding is a parameter (`Codec`); theorems that need it ask
  only that it be faithful, that is, that decoding undoes encoding, and `JsonIsFaithful` shows that the JSON one is.
- `Chaincode.dfy` has the contract's methods as they update the state in place through the stub, and the loop that
  drains the iterator, each proved to perform its step.
- `AssetBook.dfy` is the same contract over a plain map from ID to asset, and the refinement between the two.
- `LedgerRuns.dfy`, `Locality.dfy`, `Interleaving.dfy`, `Compaction.dfy`, `Ownership.dfy`, `History.dfy` and
  `Conservation.dfy` hold the theorems about runs.

**The installer** (`install-fabric.sh`). `CommandLine.dfy` has the shift-based parser, and a grammar of option
spellings in which every argument list reads in exactly one way; `Positionals.dfy` the detour by which positional
arguments reach an array (a text of slot names, split into words, each evaluated as an assignment); `Regex.dfy` what
it means for an expression to be found in a text; `Words.dfy` splitting and joining; `Selection.dfy` which components
are selected and which versions count as old; `Installer.dfy` the script from its arguments to its list of actions.

**The pallet** (`pallets/template/src/lib.rs`). `Pallet.dfy` has the two dispatchables over storage and event log, and
a closed form of every run.

**The benchmark era** (`node/src/benchmarking.rs`). `Era.dfy` has the period computation. `Decimal.dfy`, `KeyOrder.dfy`
and `Wrappers.dfy` serve the rest: numerals, the order of keys, optional values and results.

Where the code and its own words differ, the model follows the code:

- The comments at `install-fabric.sh:261` and `install-fabric.sh:271` speak of releases prior to 1.2.0 and 2.5. The
  expressions ask for one major number and look at one digit of the minor number. So 1.14.0 counts as prior to 1.2.0
  (`GateMistakesLaterRelease`), and 1.4.12 does not count as prior to 2.5, nor 0.6.1 as prior to 1.2.0
  (`GateMissesEarlierReleases`). `GateMeansPrior` says for every major and minor number whether the two agree.
- The usage text promises that components may be named by their word or its first letter. Any word beginning with the
  letter selects as well: "backup" selects the binaries (`UndocumentedNameSelects`). A component is taken as the usage
  text has it exactly when it is a documented name or no word of it begins with one of the four letters
  (`SearchAsDocumented`); `SelectionAsDocumented` and `ActionsAsPromised` say when lists of components, and the
  installer's actions including the default, are as promised.
- One empty argument means the default, two empty arguments mean nothing at all. So repeating components is harmless
  except in that one case (`EmptyArgumentsDiffer`, `ActionsBySet`).

`--help` is only recognised where an option may stand: as the value of `-f` or `-c` it is a version.

Every lemma switches automatic induction off, so that each inductive step is written out.

In `Chaincode.dfy` the loop of `GetAllAssets` is a method of its own (`Drain`), and in `Installer.dfy` the name-building
loop (`NameSlots`) and the selection (`ChooseActions`) are, so that each proof stays small.

## Model

| member | source | states |
|---|---|---|
| AssetJson.RoundTrip | interoperability_fabric.go:80-89 | for every asset, with any 64-bit numbers and any strings, decoding the encoded text gives the same asset |
| AssetJson.PrintIsObject | interoperability_fabric.go:83-89 | the encoded text is a JSON object with each field's value under its name, AppraisedValue, Color, ID, Owner and Size, in this alphabetic order |
| AssetJson.PrintInjective | interoperability_fabric.go:80-82 | equal assets are encoded as equal texts and different ones as different texts, the determinism the struct's comment asks for |
| AssetJson.ReadStringQuote | interoperability_fabric.go:85-87 | a quoted string reads back as the same string, and reading stops right after its closing quote, whatever follows |
| AssetJson.ReadIntOfInt | interoperability_fabric.go:84 | a printed 64-bit integer, negative ones included, reads back as the same integer, and reading stops at the first non-digit |
| AssetJson.PrintSafe | interoperability_fabric.go:108 | whatever the strings contain, the encoded text has no control character, no `<`, `>` or `&`, and neither of the separators U+2028 and U+2029 |
| AssetJson.OthersNotEscaped | interoperability_fabric.go:108 | conversely, every other character but the quote and the backslash stands in the text as it is |
| AssetJson.EscapeSpellings | interoperability_fabric.go:108 | the quote, the backslash and five controls have two-character spellings of their own |
| AssetJson.CodeSpellings | interoperability_fabric.go:108 | every other escaped character is spelled by its code in four lower-case hexadecimal digits |
| AssetJson.OtherSpellingsRead | interoperability_fabric.go:127 | the decoder also takes an escaped solidus, upper-case digits and surrogate pairs, replaces a lone surrogate, and refuses a raw control character |
| AssetJson.ReadIntRange | interoperability_fabric.go:84 | an integer of any size is read if and only if it fits a signed 64-bit number |
| AssetJson.LeadingZeroRefused | interoperability_fabric.go:127 | a number with a superfluous leading zero is refused |
| AssetJson.TrailingTextRefused | interoperability_fabric.go:127 | an encoded asset with anything after it is refused |
| Utf8.DecodeEncode | interoperability_fabric.go:108 | every text is stored as valid UTF-8 that decodes to it |
| Utf8.EncodingExamples | interoperability_fabric.go:108 | one character of each length has the bytes UTF-8 gives it |
| Utf8.ReadTextEncode | interoperability_fabric.go:126-130 | reading the stored bytes the way the decoder does, with replacement of what is no UTF-8, gives back every text that was stored |
| Utf8.ReadTextExact | interoperability_fabric.go:126-130 | encoding what was read gives back the same bytes if and only if they were valid UTF-8 |
| Utf8.StrayByteReadsAlike | interoperability_fabric.go:126-130 | a stray byte reads like the replacement character itself, so reading is not injective on arbitrary bytes |
| Utf8.StrayByteReplaced | interoperability_fabric.go:126-130 | a stray byte between two texts becomes one replacement character, and both texts survive |
| Utf8.OrderOfBytes | interoperability_fabric.go:214-216 | a key precedes another by character exactly when its bytes precede the other's |
| Utf8.SortedByBytes | interoperability_fabric.go:214-216 | the keys of the range scan come in ascending order of their bytes |
| Ledger.JsonIsFaithful | interoperability_fabric.go:127 | the bytes json.Marshal writes decode to the same asset, for every asset; the JSON codec is faithful, so that every theorem about faithful codecs holds of the contract |
| Chaincode.SmartContract.AssetExists | interoperability_fabric.go:175-182 | reports whether the key is present, or the wrapped read error |
| Chaincode.SmartContract.CreateAsset | interoperability_fabric.go:92-114 | the new world state and the error are those of the ledger's create step |
| Chaincode.SmartContract.ReadAsset | interoperability_fabric.go:117-133 | returns the decoded asset, or the read error, the missing-asset error or the decoding error |
| Chaincode.SmartContract.UpdateAsset | interoperability_fabric.go:136-159 | the new world state and the error are those of the ledger's update step |
| Chaincode.SmartContract.DeleteAsset | interoperability_fabric.go:162-172 | the new world state and the error are those of the ledger's delete step |
| Chaincode.SmartContract.TransferAsset | interoperability_fabric.go:185-204 | with the flag set: the new world state, and the old owner or the error, are those of the ledger's transfer step |
| Chaincode.SmartContract.GetAllAssets | interoperability_fabric.go:213-238 | returns what the ledger's range scan returns, on any world state and for any iterator failure |
| Chaincode.SmartContract.Drain | interoperability_fabric.go:222-237 | the loop over the iterator collects the decoded assets in order and stops at the first failing Next or undecodable value |
| KeyOrder.SortedKeysUnique | interoperability_fabric.go:216 | key order leaves no choice: any ascending list of the same keys is the order of the range scan |
| KeyOrder.LessMeans | interoperability_fabric.go:216 | a key precedes another exactly if it is a proper prefix or has the smaller character where they first differ |
| AssetBook.StepRefines | interoperability_fabric.go:92-238 | on a stored book every transaction, whatever fails in it, replies as the plain map does and leaves exactly the stored form of the map's result |
| AssetBook.LedgerRefinesBook | interoperability_fabric.go:92-238 | over every run from the empty state whatever is stored decodes, the decoded store is the plain map driven by the same transactions, and all replies agree |
| AssetBook.JsonLedgerRefinesBook | interoperability_fabric.go:92-238 | the same with the contract's own JSON: over every run each key of the plain map, and no other, holds the marshalled asset, which unmarshals to it |
| AssetBook.StoredInjective | interoperability_fabric.go:80-82 | two books are stored alike exactly when they are the same book |
| AssetBook.ScanStored | interoperability_fabric.go:223-235 | over a stored book the scan fails only at a failing Next and otherwise yields the assets of the remaining keys |
| Locality.StepIsLocal | interoperability_fabric.go:92-210 | in any world state a transaction other than the scan replies and acts by what is stored under its own key, and no other key changes |
| LedgerRuns.RunConcat | interoperability_fabric.go:92-238 | running one sequence after another is running their concatenation, replies included |
| LedgerRuns.FailureChangesNothing | interoperability_fabric.go:92-238 | a transaction that fails, or only asks, leaves the world state as it was |
| LedgerRuns.FailuresCanBeStruck | interoperability_fabric.go:92-238 | from any world state, striking the failed transactions and the queries from a log changes neither the final state nor the replies of the rest |
| LedgerRuns.KeyIsId | interoperability_fabric.go:101-113 | in every reachable state whatever is stored decodes to an asset whose ID is its key |
| LedgerRuns.LiveKeysCount | interoperability_fabric.go:162-172 | from any world state the number of live keys changes by successful creates minus successful deletes, in total and for each single ID |
| LedgerRuns.CreatesAndDeletesAlternate | interoperability_fabric.go:92-172 | at every point of a run from the empty state, successful creates minus successful deletes of an ID is one when the ID is live and zero when it is not |
| LedgerRuns.DeletedBetweenCreates | interoperability_fabric.go:92-172 | in a run from any world state, between two successful creates of an ID lies a successful delete of it |
| LedgerRuns.RangeScanCorrect | interoperability_fabric.go:213-238 | in every reachable state the scan fails exactly where the stub fails and otherwise returns one asset per live key, in key order, each the one ReadAsset returns |
| Interleaving.Projection | interoperability_fabric.go:92-210 | from any world state a run does to a set of IDs, and answers about them, what the transactions on those IDs alone would |
| Interleaving.SameHistoriesSameState | interoperability_fabric.go:92-210 | two runs with the same history per ID end in the same world state and give the same replies about each ID |
| Interleaving.InterleavingIndependence | interoperability_fabric.go:92-210 | every interleaving of two sequences on disjoint IDs ends as one after the other does, and gives each transaction the reply it gets on its own |
| Interleaving.MergeReachesAll | interoperability_fabric.go:92-210 | the schedules reach every interleaving: however a sequence is taken apart into two, some schedule merges them into it again |
| Interleaving.EveryInterleaving | interoperability_fabric.go:92-210 | any sequence that falls into two parts on disjoint IDs ends as one part after the other does, and each part gets the replies it gets on its own |
| Compaction.LogCompaction | interoperability_fabric.go:92-204 | for every run, one create per live asset with its final fields, in any order, succeeds throughout and reaches the same world state |
| Compaction.ScanIsBackup | interoperability_fabric.go:213-238 | recreating what GetAllAssets returns rebuilds the world state byte for byte, with no more transactions than any history that led there |
| Ownership.OwnershipChain | interoperability_fabric.go:185-204 | in every run a successful transfer returns the owner last set on that ID by a successful create, update or transfer, with no delete since |
| Ownership.ConsecutiveOwners | interoperability_fabric.go:191-204 | the old owner a transfer returns is exactly what the previous successful transaction on that ID set, and that one was no delete |
| Ownership.LogTellsOwner | interoperability_fabric.go:185-204 | at every point of a run the stored owner of an ID, or its absence, can be told from the transactions and replies so far |
| Ownership.TransferBack | interoperability_fabric.go:185-204 | in every reachable state, transferring an asset and transferring it back to the returned old owner restores the stored bytes |
| History.LogTellsAsset | interoperability_fabric.go:92-204 | at every point of a run every field of what is stored under an ID, or its absence, can be told from the transactions and replies so far |
| History.LogTellsAnswer | interoperability_fabric.go:92-204 | the log tells how the next transaction is answered when no stub call fails: refused for an ID that is live, or not live, or else with what it promises |
| History.ReadBack | interoperability_fabric.go:92-159 | what a successful create or update wrote is read back field by field, as long as no later transaction on that ID succeeds |
| Conservation.TransfersConserve | interoperability_fabric.go:185-204 | after any history, transfers and queries keep the keys, every field but the owner and the total value, and change each owner's holdings by exactly what the replies say moved |
| CommandLine.ParseRendered | install-fabric.sh:63-108 | versions in any mix of the four spellings, and components, in any order: parsing recovers the last version of each kind and the components in order, or the bare option or help request that ends them |
| CommandLine.UniqueReading | install-fabric.sh:69-105 | every argument list is a rendering followed by an end, a bare option or a help request, in exactly one way, and that reading decides the result |
| CommandLine.ParseIsMeaning | install-fabric.sh:65-107 | for every argument list the shifting walk yields the meaning of its reading |
| CommandLine.ParseConcat | install-fabric.sh:65-107 | arguments that parse can be followed by any others, and parsing goes on from the options they leave |
| CommandLine.HelpIsFinal | install-fabric.sh:86-93 | a request for help ends the parsing whatever follows |
| CommandLine.MissingValueIsSupplied | install-fabric.sh:70-84 | a missing value arises only at the very end: any further argument becomes the value |
| CommandLine.CountIsLength | install-fabric.sh:100-104 | the counter always equals the number of positionals |
| CommandLine.ClassifiedSpelling | install-fabric.sh:70-99 | an argument taken as an option was spelled as that option, and its attached value is the rest of the argument |
| CommandLine.FabricSpellings | install-fabric.sh:70-80 | the four spellings of the Fabric version set it, and nothing else |
| CommandLine.CaSpellings | install-fabric.sh:81-98 | the four spellings of the CA version set it, and nothing else |
| CommandLine.SingleArgument | install-fabric.sh:69-105 | a lone argument asks for help, lacks its value, or is a component exactly if it has that form |
| Positionals.SlotIndexOfName | install-fabric.sh:121-132 | the name built for a slot, evaluated as an assignment, addresses that slot |
| Positionals.NamesTextSplits | install-fabric.sh:121-129 | the text of names built by the first loop splits into exactly the slot names, in order |
| Installer.Script.ParseCommandline | install-fabric.sh:63-108 | the loop over the arguments leaves the variables, or exits, as the parse of the arguments says |
| Installer.Script.NameSlots | install-fabric.sh:121-129 | the first loop names one slot per positional, and one slot when there are none |
| Installer.Script.AssignPositionalArgs | install-fabric.sh:118-135 | the array ends up equal to the positionals element for element, and untouched when there are none |
| Installer.Script.ChooseActions | install-fabric.sh:279-317 | the actions are those of the targets whose expression is found in the joined components, after the default step |
| Installer.Script.Install | install-fabric.sh:253-317 | from the arguments to exit, help or plan: versions, version-dependent naming, and actions |
| Installer.EndsByReading | install-fabric.sh:63-108 | every argument list that ends at a bare option dies naming that option, one that asks for help shows the usage text, and any other leads to a plan |
| Installer.NamingDecisions | install-fabric.sh:262-274 | machine tags are used exactly for a last version beginning 1.0 or 1.1, the amd64 binaries on Darwin exactly for one beginning 2.0 to 2.4 |
| Installer.NamingByNumbers | install-fabric.sh:261-274 | the same for versions written as numbers: the major number and the leading digit of the minor number decide |
| Installer.NoArguments | install-fabric.sh:24-317 | without arguments: Fabric 2.5.9, CA 1.5.12, neither older naming, and samples, binaries and docker images |
| Installer.ActionsAreSelected | install-fabric.sh:289-317 | each action is taken exactly if its target is selected, at most once, and in the order samples, binaries, podman, docker |
| Installer.InstallsWhatIsNamed | install-fabric.sh:253-317 | versions and documented names in any order and spelling install exactly the named targets with the last versions, and the default without names |
| Installer.ActionsBySet | install-fabric.sh:279-317 | order and repetition of components change nothing, except that one empty component means the default and several mean nothing |
| Installer.EmptyArgumentsDiffer | install-fabric.sh:280-285 | two empty components install nothing, a single one does not |
| Installer.ActionsAsPromised | install-fabric.sh:57-317 | the actions are those the usage text promises, the default included, if and only if whatever an undocumented component selects is named by a documented one too |
| Installer.DefaultActions | install-fabric.sh:279-285 | without components, or with one empty one, samples, binaries and docker images are installed, in this order |
| Regex.EmptyTextOnly | install-fabric.sh:280 | the expression of the default step is found in the empty text only |
| Selection.SelectorFindsWord | install-fabric.sh:289-311 | the selecting expression is found exactly when some word between spaces and commas begins with the letter |
| Selection.SelectedPerComponent | install-fabric.sh:289-311 | searching the joined components is asking each component on its own |
| Selection.SelectedByLetter | install-fabric.sh:289-311 | the four targets are selected exactly by an s, b, p or d that stands first or after a space or comma |
| Selection.SelectedBySet | install-fabric.sh:289-311 | selection does not depend on the order or repetition of components |
| Selection.SelectedByGrouping | install-fabric.sh:284-311 | a comma-separated argument selects what its parts select as separate arguments |
| Selection.DocumentedNames | install-fabric.sh:57 | components written as the usage text says, by word or first letter, select exactly the targets they name |
| Selection.NamesLiterally | install-fabric.sh:57 | the documented names are the four words and their first letters |
| Selection.SearchAsDocumented | install-fabric.sh:57-311 | a component is taken as the usage text has it if and only if it is a documented name or no word of it begins with s, b, p or d |
| Selection.SelectionAsDocumented | install-fabric.sh:57-311 | a list of components selects exactly what it names if and only if whatever an undocumented component selects is named by a documented one too |
| Selection.UndocumentedNameSelects | install-fabric.sh:57-296 | "backup", which the usage text does not have, selects the binaries |
| Selection.DefaultCondition | install-fabric.sh:280 | the default takes over exactly for no component or a single empty one |
| Selection.DefaultSelects | install-fabric.sh:279-285 | the default selects everything but the podman images |
| Selection.GateOpens | install-fabric.sh:262-274 | the version expressions are found exactly in versions with that major digit and a minor part beginning with a low digit |
| Selection.GateMeansPrior | install-fabric.sh:261-274 | for every major and minor number the expression means "prior to" if and only if the major number is later, or is the gate's own and the minor number is not one of several digits beginning with a low one |
| Selection.GateMissesEarlierReleases | install-fabric.sh:261-272 | 1.4.12 is not taken for a release prior to 2.5, nor 0.6.1 for one prior to 1.2.0 |
| Selection.GateMistakesLaterRelease | install-fabric.sh:261-262 | release 1.14.0 is taken for one prior to 1.2.0 |
| Pallet.Module.DoSomething | pallets/template/src/lib.rs:155-167 | storage, events and result are those of the dispatch |
| Pallet.Module.CauseError | pallets/template/src/lib.rs:184-200 | storage and result are those of the dispatch, and no event is added |
| Pallet.FailureChangesNothing | pallets/template/src/lib.rs:155-200 | a failing call changes neither the stored value nor the event log |
| Pallet.FailuresCanBeStruck | pallets/template/src/lib.rs:155-200 | striking the failing calls from a run leaves the same final state, and all remaining calls succeed |
| Pallet.RunCharacterised | pallets/template/src/lib.rs:155-200 | in every run the stored value, the event log and every result are told from the calls alone, without wrapping |
| Pallet.EveryRunExplained | pallets/template/src/lib.rs:155-200 | a value is stored exactly when some do_something succeeded, and is the last event's number plus the successful increments since |
| Pallet.BatchSaturates | pallets/template/src/lib.rs:184-199 | n increments from v leave the lesser of v + n and the largest number; the first ones succeed and all later ones overflow |
| Pallet.OverflowAtMax | pallets/template/src/lib.rs:194 | from 4294967294 an increment succeeds, from 4294967295 it overflows and leaves the value |
| Era.PeriodBound | node/src/benchmarking.rs:108-111 | for a count of at least two the period is a power of two below the count, the largest one up to 2^31 and 2 beyond |
| Era.PeriodZero | node/src/benchmarking.rs:108-111 | the period is zero for a count below two and a power of two otherwise |
| Era.NextPowerFits | node/src/benchmarking.rs:109 | the checked next power of two exists exactly up to 2^31 |
| Era.RuntimePeriod | runtime/src/lib.rs:136 | with the runtime's 2400 block hashes the period is 2048 |
| Era.PeriodAtEdges | node/src/benchmarking.rs:108-111 | 2147483648 gives 1073741824, one more gives 2, and so does the largest count |

## Left out

- Strings are sequences of Unicode scalar values: arguments that are not valid UTF-8, which json.Marshal would alter, are not modelled. In stored bytes the replacement of invalid UTF-8 is.
- The decoder accepts the members in the struct's order and without white space, as the contract writes them; other orders, unknown members, white space and case-insensitive names are not modelled.
- The encoder's short forms for backspace and form feed are those of Go 1.22 and later; the decoder accepts both forms.
- json.Marshal cannot fail on this struct, so its error branches are absent.
- TransferAsset without the flag: the branch is empty and the function has no result there.
- Composite keys, empty keys, endorsement and ordering: the stub's own checks appear only as stub calls that may fail. The stub's range query is taken to hand out every key; Fabric's skips keys beginning with U+0000, so for such IDs "every live key" in the rows on the range scan and the backup does not apply to it.
- Closing the iterator is modelled; that it happens on every path is not stated, since the iterator never leaves the method.
- The installer's downloads, git and container actions, and the tags and platform names derived from the environment: the plan lists actions and naming decisions only.
- Expansion of slot names against file names in the working directory is not modelled.
- handle_passed_args_count and begins_with_short_option do nothing, respectively are never called.
- Pallet weights, the runtime configuration, and the clearing of events between blocks: the log is that of one stretch of blocks after genesis.
- Era::mortal, signing and the encoding of the benchmark transaction are not part of this model.
