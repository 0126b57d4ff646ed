# awsrm, modelled in Dafny

awsrm deletes AWS resources through the Terraform AWS provider. Resources come either from
command-line arguments (a type and a list of ids, with the profile and region taken from flags or
the environment) or as records piped in from awsls, one `<type> <id> <profile> <region>` per line.
awsrm refreshes each resource's Terraform state and drops those that no longer exist. It lists what
would be deleted, asks for confirmation (unless forced), and hands the rest to the destroyer
(unless it is a dry run).

This project models the logic that decides *what* is deleted. Every remote collaborator is a
function parameter (an oracle). That covers the client pool, the provider pool, the type-support
predicates, the state refresh and the destroyer. The modules are:

- `Wrappers` holds `Option` and `Result`.
- `Text` gives `strings.Fields` over ASCII whitespace and `JoinFields`, which joins words with
  single spaces. Splitting the joined line gives back its words when none is empty or holds a
  space (`FieldsOfJoin`); joining split fields does not restore irregular spacing. It also gives ASCII
  `strings.ToLower`, and decimal rendering for log titles.
- `Domain` holds the descriptors. A refreshed state is either `Null` or a `Live` handle. The
  subset type `Eligible` holds only live resources, so only a resource with a state can be
  converted for destruction.
- `ResourceUtil` models `pkg/resource/util.go` (`PrefixResourceType`).
- `Confirm` models `internal/confirm.go`. `fmt.Fscanln` is modelled on the reader's contents:
  skip blanks, read one word, then only blanks may come before the newline or the end. The
  resulting gate is proved equal to an independent reading: the first line, trimmed, lower-cased,
  is `"yes"`.
- `ResourcePkg` models `pkg/resource/resource.go`:
  - `Read` as a loop proved against the recursive `ReadSpec`;
  - `Update` as a loop proved against `ToDelete`, `AlreadyDeleted` and `AbsentReport`;
  - `convertToDestroyable` as a total map;
  - `Delete` as a method returning a `DeleteOutcome`. The outcome records the log, whether the
    user was asked, the batch handed to the destroyer, and how often `done` was sent.
- `Main` models `main.go`:
  - the older parser `readResources`, proved against `ReadResourcesSpec` and compared with `Read`;
  - the client-key loop;
  - `mainExitCode` from the version flag to the end.
- `HandleArgs` models `handle_args.go` lines 22-65. The map's iteration order is a
  nondeterministic choice, returned as a ghost `order`. The resources are proved to be the
  cross product of clients and ids, with the same multiset for every order.

The scanner is replaced by its output: the list of scanned lines plus a flag that says whether
`scanner.Err()` reported an error after them.

When main.go runs in argument mode with exactly three positional arguments, it passes the
`len(args) < 3` guard and then reads `args[3]`, which is out of range. `MainExitCode` models this
as a run that ends with the Go runtime's panic status (`PanicExitCode`, 2), not as a precondition.

## Model

| member | source | states |
|---|---|---|
| ResourceUtil.PrefixResourceType | pkg/resource/util.go:7-12 | the result always starts with "aws_"; its length is the input's or four more; the input is a suffix of it |
| ResourceUtil.PrefixUnchangedIff | pkg/resource/util.go:8-11 | the type comes back unchanged exactly when it already starts with "aws_" |
| ResourceUtil.PrefixAdded | pkg/resource/util.go:8-9 | a type without the prefix comes back as "aws_" followed by the type |
| ResourceUtil.PrefixIdempotent | pkg/resource/util.go:7-12 | prefixing twice is the same as prefixing once |
| ResourceUtil.PrefixVpc | test/pipe_test.go:209-219 | "vpc" becomes "aws_vpc", and "aws_vpc" stays as it is |
| Text.Fields | pkg/resource/resource.go:111 | every field strings.Fields returns is a non-empty run of non-whitespace characters |
| Text.FieldsOfJoin | pkg/resource/resource.go:111 | splitting space-joined whitespace-free words on whitespace gives the words back |
| Text.FieldsOfToken | main.go:164 | a whitespace-free word followed by whitespace or the end of the line is exactly the next field |
| Text.ToLowerIsYes | internal/confirm.go:26 | a word lower-cases to "yes" exactly when it is one of the eight letter-case spellings of "yes" |
| Confirm.Fscanln | internal/confirm.go:20 | a scan that succeeds read from a readable device and returned one whitespace-free word |
| Confirm.UserConfirmedDeletion | internal/confirm.go:14-31 | confirms only a scanned three-letter word; any scan error declines |
| Confirm.ScannedIsTrim | internal/confirm.go:20 | the word scanned from a line is that line with leading and trailing blanks removed |
| Confirm.ConfirmedIffTrimmedYes | internal/confirm.go:20-30 | a readable device confirms exactly when its first line, trimmed and lower-cased, is "yes" (both directions) |
| Confirm.WordAloneScans | internal/confirm.go:20 | a word followed by a newline or the end scans as that word |
| Confirm.TwoWordsFail | internal/confirm.go:20-24 | two words on the line make the scan fail with "expected newline" |
| Confirm.YesAloneConfirms | internal/confirm.go:26-27 | "yes" in any letter case, alone on its line, confirms |
| Confirm.AcceptedUpperCase | internal/confirm.go:26-27 | the answer "YES" confirms |
| Confirm.AcceptedLowerCase | internal/confirm.go:26-27 | the answer "yes" confirms |
| Confirm.OtherWordDeclines | internal/confirm.go:26-30 | any other single word declines |
| Confirm.DeclinedWords | internal/confirm.go:26-30 | "no", "y" and "ye" decline |
| Confirm.DeclinedEmpty | internal/confirm.go:20-24 | empty input, an empty line and a failing reader are scan errors, so they decline |
| Confirm.DeclinedSentence | internal/confirm.go:20-24 | "yes please" is a scan error, so it declines |
| ResourcePkg.ParseLine | pkg/resource/resource.go:111-132 | a parsed record carries a prefixed, supported type; a line never fails with the scanner's error |
| ResourcePkg.ParseLineErrors | pkg/resource/resource.go:111-119 | a line fails as malformed exactly when it has fewer than four fields; with four or more it fails with "no resource type found" for the prefixed type exactly when that type is unsupported |
| ResourcePkg.ReadSpec | pkg/resource/resource.go:99-141 | on success, at most one resource per line, each with a prefixed, supported type |
| ResourcePkg.Read | pkg/resource/resource.go:99-141 | the scanner loop with early returns computes exactly ReadSpec |
| ResourcePkg.ReadOkIff | pkg/resource/resource.go:103-140 | Read succeeds exactly when the scanner did not fail and every non-skipped line parses |
| ResourcePkg.ReadOkContents | pkg/resource/resource.go:103-140 | on success, one resource per non-skipped line, in input order, each that line parsed |
| ResourcePkg.ReadFirstErrorWins | pkg/resource/resource.go:111-119 | the first non-skipped line that fails to parse decides the error, whatever came before |
| ResourcePkg.ReadFailsOnShortLine | pkg/resource/resource.go:111-114 | a non-skipped line with fewer than four fields fails the whole read, wherever it stands |
| ResourcePkg.ReadSkipsLine | pkg/resource/resource.go:106-109 | an empty, "\n" or "TYPE…" line adds nothing and raises no error, wherever it stands |
| ResourcePkg.ParseLineFields | pkg/resource/resource.go:116-132 | type = prefixed first field, id = second, region = fourth; the profile is "" exactly for N\A and otherwise kept verbatim |
| ResourcePkg.ParseLineIgnoresExtraFields | pkg/resource/resource.go:111-132 | lines that agree on their first four fields parse alike |
| ResourcePkg.ParseRecordLine | pkg/resource/resource.go:111-132 | a record line as awsls prints it parses to its resource with the type prefixed, or fails naming the prefixed unsupported type |
| ResourcePkg.RecordLineColumns | pkg/resource/resource.go:97-98 | a record line is its four columns separated by single spaces, with N\A for an empty profile |
| ResourcePkg.ReadKeptLine | pkg/resource/resource.go:127-132 | a kept line that parses puts its resource in front of what the rest of the input reads |
| ResourcePkg.RecordLineKept | pkg/resource/resource.go:107 | a record line whose type does not start with "TYPE" is not skipped |
| ResourcePkg.ReadRecordLines | pkg/resource/resource.go:99-141 | reading the records of resources gives those resources back in order, with types prefixed |
| ResourcePkg.ReadPrefixedRecordLines | pkg/resource/resource.go:99-141 | records whose types already carry the prefix read back unchanged |
| ResourcePkg.ReadUnsupportedRecord | pkg/resource/resource.go:116-119 | an unsupported record after valid ones fails the read with "no resource type found" for the prefixed type |
| ResourcePkg.ReadBareRecordLine | pkg/resource/resource.go:116-119 | a record with a bare type such as "vpc" is read with "aws_" added |
| ResourcePkg.Update | pkg/resource/resource.go:24-51 | returns the non-null resources in order with the refresh errors unchanged; the absent ones are logged under their title, which appears only if there are any |
| ResourcePkg.UpdateClassifies | pkg/resource/resource.go:30-36 | a resource is to be deleted exactly when refreshed with a live state, and already deleted exactly when its state is null |
| ResourcePkg.UpdatePartitions | pkg/resource/resource.go:30-36 | together the two classes are the refreshed resources, counting repeats |
| ResourcePkg.ToDeleteKeepsOrder | pkg/resource/resource.go:30-36 | the classification distributes over concatenation, so input order is kept |
| ResourcePkg.NothingToDeleteIff | pkg/resource/resource.go:30-36 | nothing is left to delete exactly when every refreshed state is null |
| ResourcePkg.AbsentAreReported | pkg/resource/resource.go:38-48 | every resource whose state is null is listed in the report |
| ResourcePkg.ConvertToDestroyable | pkg/resource/resource.go:143-151 | one destroyable per resource, in order, carrying its description and live state |
| ResourcePkg.DestroyOnlyLive | pkg/resource/resource.go:143-151 | everything handed to the destroyer was refreshed with a live state |
| ResourcePkg.Delete | pkg/resource/resource.go:54-95 | done is sent exactly once; asks exactly when there is something to delete and it is neither a dry run nor forced; destroys exactly when there is something to delete, it is not a dry run, and it is forced or confirmed; the batch is the converted list; the log on each path |
| ResourcePkg.DeletionPolicy | pkg/resource/resource.go:55-92 | empty list or dry run: never asks, never destroys; force without dry run: destroys without asking; otherwise destroys exactly when confirmed |
| Main.ParseLegacyLine | main.go:164-185 | a parsed record has at least four fields and keeps the first field verbatim as a supported type |
| Main.ParseLegacyLineErrors | main.go:164-174 | a line fails with the form error exactly when it has fewer than four fields; with four or more it fails with "is not a Terraform resource type" for the verbatim type exactly when that type is unsupported |
| Main.ParseLegacyLineFields | main.go:169-185 | type = first field verbatim, id = second, region = fourth; the profile is "" exactly for N\A and otherwise kept verbatim |
| Main.ParseLegacyLineIgnoresExtraFields | main.go:164-185 | lines that agree on their first four fields parse alike |
| Main.ReadResourcesSpec | main.go:158-194 | on success exactly one resource per line, each with a supported type |
| Main.ReadResources | main.go:158-194 | the scanner loop with early returns computes exactly ReadResourcesSpec |
| Main.LegacyReadOkIff | main.go:162-186 | readResources succeeds exactly when the scanner did not fail and every line parses |
| Main.LegacyFirstErrorWins | main.go:162-186 | the first line that fails to parse decides the error the whole read returns (the form error, or "is not a Terraform resource type" for its verbatim type), whatever follows |
| Main.LegacyReadContents | main.go:180-185 | on success the i-th resource is the i-th line parsed |
| Main.EmptyLineDiverges | main.go:164-167 | an empty line fails readResources wherever it stands, while Read skips it |
| Main.BareTypeDiverges | main.go:169-174 | a bare type name fails readResources with "is not a Terraform resource type", while Read accepts it prefixed |
| Main.CanonicalLineAgrees | main.go:164-185 | on a line without skip or prefix effects, the two line parsers give the same record or corresponding errors |
| Main.ParsersAgree | main.go:158-194 | on such input the two readers return the same resources or corresponding errors |
| Main.LegacyReadRecordLines | main.go:158-194 | reading the records of resources with supported verbatim types gives them back |
| Main.ClientKeys | main.go:98-104 | one (profile, region) key per resource, in order |
| Main.KeysOfKeepsDuplicates | main.go:98-104 | two resources in the same profile and region give the same key twice |
| Main.KeysOfAppend | main.go:98-104 | the keys of concatenated resources are the concatenated keys |
| Main.MainExitCode | main.go:59-150 | version exits 0; fewer than 3 args exits 1; exactly 3 args panics on args[3]; a failed read or stdin close exits 1; a failed provider pool exits 1; otherwise the deletion phase |
| Main.ShowAndDestroy | main.go:113-150 | without force: the listing first, and an empty list exits 0; dry run stops there; an unopenable tty exits 1; destroys only on a positive confirmation, with exit 0 |
| HandleArgs.CrossProduct | handle_args.go:50-60 | |clients in the order| × |ids| resources |
| HandleArgs.HandleInputFromArgs | handle_args.go:22-65 | unsupported prefixed type (and only that) stops first; profile from the flag, else AWS_PROFILE, else none; region from the flag, else none; pool failure stops exactly when the pool fails; otherwise the resources are the cross product in map order, |clients| × (|args| − 1) of them, the same multiset for every order, and the client keys enumerate the pool |
| HandleArgs.BuildResources | handle_args.go:50-60 | the nested loop builds the cross product for the map order it visits, which enumerates the pool |
| HandleArgs.AppendRow | handle_args.go:52-59 | appends one resource per id, in id order, each carrying the resource type and the client's profile and region, after the resources already built |
| HandleArgs.CollectClientKeys | handle_args.go:62-65 | every key of the pool exactly once, as many as there are clients |
| HandleArgs.CrossProductAppend | handle_args.go:51-60 | concatenating client orders concatenates their resources |
| HandleArgs.CrossProductMembers | handle_args.go:51-60 | a resource is built exactly when it carries the type, one of the ids, and some client's profile and region |
| HandleArgs.CrossProductOrderFree | handle_args.go:51-60 | any two iteration orders of the client map build the same multiset of resources |
| HandleArgs.CrossProductSize | handle_args.go:51-60 | there are |clients| × |ids| resources |
| HandleArgs.EnumerationSize | handle_args.go:62-65 | a list of distinct keys covering the map has one entry per client |

## Left out

- `isInputFromPipe` (main.go:153-156) and `handle_pipe.go` as a whole are not modelled. They
  query the OS file mode and wire I/O together. `MainExitCode` takes "input is from pipe" as a
  flag, and reading stdin, closing it and opening /dev/tty as given outcomes.
- handle_args.go:67-101 lies outside the modelled lines. Those lines do three things:
  - get the provider pool (67-73) and defer closing its providers (74-78);
  - run `Update` in a goroutine and wait for it or for cancellation (80-91);
  - run `Delete` in a goroutine and wait for it likewise (93-99).
  So `terraform.NewProviderPool` and the providers' `Close` are not modelled, and neither are the
  goroutines, channels and context cancellation. `Update` and `Delete` are modelled on their own.
  `Delete`'s `done` channel becomes a count of sends.
- The other foreign calls are parameters of the modelled operations that use them:
  - `aws.NewClientPool` (`newClientPool` of `HandleInputFromArgs`);
  - `util.NewProviderPool` (`providerPool` of `MainExitCode`, succeeding or failing);
  - `terraform.IsType` (`isType` of `Read`); `resource.IsType` (`isType` of `ReadResources`
    and `MainExitCode`); `IsSupportedType` (`isSupported` of `HandleInputFromArgs`);
  - `terraform.UpdateStates` (`updateStates` of `Update`); `resource.GetStates` (`getStates`
    of `MainExitCode`);
  - `DestroyResources` (`destroyResources` of `Delete`, `destroy` of `MainExitCode`).
  The worker-pool sizes (10 and 5) are passed to them as constants.
- Logging is reduced to the sequence of titles and listed resources, with their level. Colours,
  padding, debug logging, `printHelp`, flag parsing and the version string are left out.
- `bufio.Scanner` is left out. Its line splitting and buffer limit are replaced by the list of
  scanned lines and the `scanFailed` flag.
- Unicode is left out. Whitespace and letter case are ASCII only.
- The source does not compile as a whole, so each function follows its own definition:
  - `Delete` is modelled with its five parameters (pkg/resource/resource.go:54), although
    handle_args.go:94 passes four.
  - The two-argument call `UserConfirmedDeletion(tty, force)` at main.go:138 is taken as an
    oracle `confirm(force)`.
- HandleArgs.HandleInputFromArgs: requires at least one argument. handle_args.go:22 reads `args[0]` without a guard, so an empty argument list panics there; no caller in main.go is part of this model, so that runtime panic is not modelled as an outcome (unlike the `args[3]` panic of `MainExitCode`).
- Main.MainExitCode: the refreshed states come from calling `getStates` on the resources alone.
  The provider pool, which main.go:113 also passes, is only modelled as succeeding or failing.
- Main.MainExitCode: `getStates` returns `Eligible` values, so the oracle is assumed to drop
  resources whose refreshed state is null or unset. main.go:113-145 lists, and hands to the
  destroyer, whatever `resource.GetStates` returns, so a state-less result is not modelled.
- The acceptance tests in test/ need real AWS accounts. They are used only as evidence for the
  example lemmas.
