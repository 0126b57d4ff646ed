/**
 * main.go: the older record parser (readResources), the derivation of client keys, and the
 * branches of mainExitCode from the argument check to the deletion.
 */
module Main {
  import opened Wrappers
  import opened Text
  import opened Domain
  import opened ResourceUtil
  import opened ResourcePkg

  // ------------------------------------------------------------ readResources

  /** Why readResources fails: a short line, a type that is not a Terraform type, or the scanner's error. */
  datatype LegacyReadError = FormError | NotTerraformType(rType: string) | ScannerError

  /** One line of readResources' loop: no skip rule and no prefixing. */
  function ParseLegacyLine(line: string, isType: string -> bool): (r: Result<Resource, LegacyReadError>)
    ensures r.Ok? ==> |Fields(line)| >= 4 && r.value.rtype == Fields(line)[0] && isType(r.value.rtype)
    ensures r.Err? ==> r.error != ScannerError
  {
    var fields := Fields(line);
    if |fields| < 4 then Err(FormError)
    else if !isType(fields[0]) then Err(NotTerraformType(fields[0]))
    else Ok(Resource(fields[0], fields[1], NormalizeProfile(fields[2]), fields[3]))
  }

  /**
   * The error path: a line fails with the form error exactly when it has fewer than four fields,
   * and one with four or more fails naming its verbatim type exactly when that type is unsupported.
   */
  lemma ParseLegacyLineErrors(line: string, isType: string -> bool)
    ensures ParseLegacyLine(line, isType) == Err(FormError) <==> |Fields(line)| < 4
    ensures |Fields(line)| >= 4 ==>
      (ParseLegacyLine(line, isType) == Err(NotTerraformType(Fields(line)[0])) <==> !isType(Fields(line)[0]))
  {
  }

  /**
   * A parsed line keeps the first field verbatim as its type, takes the id and region from the
   * second and fourth fields, and maps the profile "N\A" (and only it) to "".
   */
  lemma ParseLegacyLineFields(line: string, isType: string -> bool)
    requires ParseLegacyLine(line, isType).Ok?
    ensures var r := ParseLegacyLine(line, isType).value; var f := Fields(line);
      r.rtype == f[0] && r.id == f[1] && r.region == f[3] &&
      (r.profile == "" <==> f[2] == NotApplicable) &&
      (f[2] != NotApplicable ==> r.profile == f[2])
  {
  }

  /** Fields beyond the fourth are ignored. */
  lemma ParseLegacyLineIgnoresExtraFields(line1: string, line2: string, isType: string -> bool)
    requires |Fields(line1)| >= 4 && |Fields(line2)| >= 4
    requires Fields(line1)[..4] == Fields(line2)[..4]
    ensures ParseLegacyLine(line1, isType) == ParseLegacyLine(line2, isType)
  {
    assert forall i :: 0 <= i < 4 ==> Fields(line1)[i] == Fields(line1)[..4][i];
    assert forall i :: 0 <= i < 4 ==> Fields(line2)[i] == Fields(line2)[..4][i];
  }

  /** What readResources returns for the scanned lines; every line yields a resource or the error. */
  function ReadResourcesSpec(lines: seq<string>, scanFailed: bool, isType: string -> bool): (r: Result<seq<Resource>, LegacyReadError>)
    ensures r.Ok? ==> |r.value| == |lines|
    ensures r.Ok? ==> forall i :: 0 <= i < |r.value| ==> isType(r.value[i].rtype)
  {
    if lines == [] then (if scanFailed then Err(ScannerError) else Ok([]))
    else match ParseLegacyLine(lines[0], isType)
      case Err(e) => Err(e)
      case Ok(res) => Prepend([res], ReadResourcesSpec(lines[1..], scanFailed, isType))
  }

  /** readResources: the scanner loop, failing fast on the first bad line. */
  method ReadResources(lines: seq<string>, scanFailed: bool, isType: string -> bool) returns (r: Result<seq<Resource>, LegacyReadError>)
    ensures r == ReadResourcesSpec(lines, scanFailed, isType)
  {
    var result: seq<Resource> := [];
    var i := 0;
    assert lines[0..] == lines;
    PrependNothing(ReadResourcesSpec(lines, scanFailed, isType));
    while i < |lines|
      invariant 0 <= i <= |lines|
      invariant ReadResourcesSpec(lines, scanFailed, isType) == Prepend(result, ReadResourcesSpec(lines[i..], scanFailed, isType))
    {
      var line := lines[i];
      ghost var rest := ReadResourcesSpec(lines[i + 1..], scanFailed, isType);
      assert lines[i..][1..] == lines[i + 1..];
      assert ReadResourcesSpec(lines[i..], scanFailed, isType) ==
        match ParseLegacyLine(line, isType) case Err(e) => Err(e) case Ok(res) => Prepend([res], rest);
      var rAttrs := Fields(line);
      if |rAttrs| < 4 {
        return Err(FormError);
      }
      var rType := rAttrs[0];
      var profile := rAttrs[2];
      if !isType(rType) {
        return Err(NotTerraformType(rType));
      }
      if profile == NotApplicable {
        profile := "";
      }
      var res := Resource(rType, rAttrs[1], profile, rAttrs[3]);
      PrependOneMore(result, res, rest);
      result := result + [res];
      i := i + 1;
    }
    assert lines[i..] == [];
    assert result + [] == result;
    assert ReadResourcesSpec(lines[i..], scanFailed, isType) == if scanFailed then Err(ScannerError) else Ok([]);
    if scanFailed {
      return Err(ScannerError);
    }
    return Ok(result);
  }

  /** readResources succeeds exactly when the scanner did not fail and every line parses. */
  lemma {:induction false} LegacyReadOkIff(lines: seq<string>, scanFailed: bool, isType: string -> bool)
    ensures ReadResourcesSpec(lines, scanFailed, isType).Ok? <==>
      !scanFailed && forall k :: 0 <= k < |lines| ==> ParseLegacyLine(lines[k], isType).Ok?
  {
    if lines != [] {
      LegacyReadOkIff(lines[1..], scanFailed, isType);
      assert forall k :: 1 <= k < |lines| ==> lines[k] == lines[1..][k - 1];
    }
  }

  /** The first line that fails to parse decides the error readResources returns. */
  lemma {:induction false} LegacyFirstErrorWins(lines: seq<string>, k: nat, scanFailed: bool, isType: string -> bool)
    requires k < |lines| && ParseLegacyLine(lines[k], isType).Err?
    requires forall j :: 0 <= j < k ==> ParseLegacyLine(lines[j], isType).Ok?
    ensures ReadResourcesSpec(lines, scanFailed, isType) == Err(ParseLegacyLine(lines[k], isType).error)
  {
    if k > 0 {
      assert forall j :: 0 <= j < k - 1 ==> lines[1..][j] == lines[j + 1];
      LegacyFirstErrorWins(lines[1..], k - 1, scanFailed, isType);
    }
  }

  /** On success, the i-th resource is the i-th line parsed. */
  lemma {:induction false} LegacyReadContents(lines: seq<string>, scanFailed: bool, isType: string -> bool)
    requires ReadResourcesSpec(lines, scanFailed, isType).Ok?
    ensures var rs := ReadResourcesSpec(lines, scanFailed, isType).value;
      forall i :: 0 <= i < |rs| ==> ParseLegacyLine(lines[i], isType) == Ok(rs[i])
  {
    if lines != [] {
      LegacyReadContents(lines[1..], scanFailed, isType);
    }
  }

  /** An empty line, which Read skips, makes readResources fail wherever it stands. */
  lemma EmptyLineDiverges(before: seq<string>, after: seq<string>, scanFailed: bool, isType: string -> bool)
    ensures ReadResourcesSpec(before + [""] + after, scanFailed, isType).Err?
    ensures ReadSpec(before + [""] + after, scanFailed, isType) == ReadSpec(before + after, scanFailed, isType)
  {
    LegacyReadOkIff(before + [""] + after, scanFailed, isType);
    assert (before + [""] + after)[|before|] == "";
    assert Fields("") == [];
    ReadSkipsLine(before, "", after, scanFailed, isType);
  }

  /** The type column is checked verbatim: a bare type name such as "vpc" fails here although Read accepts it. */
  lemma BareTypeDiverges(r: Resource, isType: string -> bool)
    requires Printable(r) && !HasPrefix(r.rtype, AwsPrefix) && !HasPrefix(r.rtype, HeaderMarker)
    requires isType(AwsPrefix + r.rtype) && !isType(r.rtype)
    ensures ReadResourcesSpec([RecordLine(r)], false, isType) == Err(NotTerraformType(r.rtype))
    ensures ReadSpec([RecordLine(r)], false, isType) == Ok([r.(rtype := AwsPrefix + r.rtype)])
  {
    var p := if r.profile == "" then NotApplicable else r.profile;
    assert IsToken(NotApplicable);
    FieldsOfJoin([r.rtype, r.id, p, r.region]);
    ReadBareRecordLine(r, isType);
  }

  /** How Read's errors read in readResources' terms. */
  function Translate(r: Result<seq<Resource>, ReadError>): Result<seq<Resource>, LegacyReadError> {
    match r
    case Ok(rs) => Ok(rs)
    case Err(MalformedLine) => Err(FormError)
    case Err(NoResourceType(t)) => Err(NotTerraformType(t))
    case Err(ScannerFailed) => Err(ScannerError)
  }

  /** A line on which Read's skip rule and prefixing make no difference. */
  predicate Canonical(line: string) {
    !Skipped(line) && (|Fields(line)| >= 4 ==> HasPrefix(Fields(line)[0], AwsPrefix))
  }

  lemma CanonicalLineAgrees(line: string, isType: string -> bool)
    requires Canonical(line)
    ensures ParseLegacyLine(line, isType) == match ParseLine(line, isType)
      case Ok(res) => Ok(res)
      case Err(MalformedLine) => Err(FormError)
      case Err(NoResourceType(t)) => Err(NotTerraformType(t))
      case Err(ScannerFailed) => Err(ScannerError)
  {
    if |Fields(line)| >= 4 {
      PrefixUnchangedIff(Fields(line)[0]);
    }
  }

  /**
   * Given the same support predicate, the two parsers agree on input where no line is skipped and
   * every type already carries the prefix: same resources, corresponding errors.
   */
  lemma {:induction false} ParsersAgree(lines: seq<string>, scanFailed: bool, isType: string -> bool)
    requires forall k :: 0 <= k < |lines| ==> Canonical(lines[k])
    ensures ReadResourcesSpec(lines, scanFailed, isType) == Translate(ReadSpec(lines, scanFailed, isType))
  {
    if lines != [] {
      assert forall k :: 0 <= k < |lines| - 1 ==> lines[1..][k] == lines[k + 1];
      ParsersAgree(lines[1..], scanFailed, isType);
      ParsersAgreeStep(lines[0], lines[1..], scanFailed, isType);
      assert lines == [lines[0]] + lines[1..];
    }
  }

  lemma ParsersAgreeStep(line: string, rest: seq<string>, scanFailed: bool, isType: string -> bool)
    requires Canonical(line)
    requires ReadResourcesSpec(rest, scanFailed, isType) == Translate(ReadSpec(rest, scanFailed, isType))
    ensures ReadResourcesSpec([line] + rest, scanFailed, isType) == Translate(ReadSpec([line] + rest, scanFailed, isType))
  {
    CanonicalLineAgrees(line, isType);
    assert ([line] + rest)[1..] == rest;
  }

  /** Reading the records of resources with supported, verbatim types gives them back. */
  lemma {:induction false} LegacyReadRecordLines(rs: seq<Resource>, isType: string -> bool)
    requires forall i :: 0 <= i < |rs| ==> Printable(rs[i]) && isType(rs[i].rtype)
    ensures ReadResourcesSpec(RecordLines(rs), false, isType) == Ok(rs)
  {
    if rs != [] {
      var r := rs[0];
      RecordLinesCons(rs);
      var p := if r.profile == "" then NotApplicable else r.profile;
      assert IsToken(NotApplicable);
      FieldsOfJoin([r.rtype, r.id, p, r.region]);
      LegacyReadRecordLines(rs[1..], isType);
      assert ([RecordLine(r)] + RecordLines(rs[1..]))[1..] == RecordLines(rs[1..]);
      assert rs == [r] + rs[1..];
    }
  }

  // --------------------------------------------------------------- client keys

  /** One client key per resource, in order. */
  function KeysOf(rs: seq<Resource>): (keys: seq<ClientKey>)
    ensures |keys| == |rs|
  {
    seq(|rs|, i requires 0 <= i < |rs| => KeyOf(rs[i]))
  }

  /** The loop of main.go that collects one (profile, region) pair per resource. */
  method ClientKeys(resources: seq<Resource>) returns (clientKeys: seq<ClientKey>)
    ensures clientKeys == KeysOf(resources)
  {
    clientKeys := [];
    var i := 0;
    while i < |resources|
      invariant 0 <= i <= |resources|
      invariant clientKeys == KeysOf(resources[..i])
    {
      var r := resources[i];
      clientKeys := clientKeys + [ClientKey(r.profile, r.region)];
      i := i + 1;
    }
    assert resources[..i] == resources;
  }

  /** Duplicates are kept: two resources in the same account and region give the same key twice. */
  lemma KeysOfKeepsDuplicates(rs: seq<Resource>, i: nat, j: nat)
    requires i < j < |rs| && rs[i].profile == rs[j].profile && rs[i].region == rs[j].region
    ensures KeysOf(rs)[i] == KeysOf(rs)[j] && |KeysOf(rs)| == |rs|
  {
  }

  /** Keys distribute over concatenation, so they follow the resources' order. */
  lemma KeysOfAppend(a: seq<Resource>, b: seq<Resource>)
    ensures KeysOf(a + b) == KeysOf(a) + KeysOf(b)
  {
    assert forall i :: 0 <= i < |b| ==> (a + b)[|a| + i] == b[i];
  }

  // -------------------------------------------------------------- mainExitCode

  /** The four positional arguments as one resource. */
  function ArgResource(args: seq<string>): Resource
    requires |args| >= 4
  {
    Resource(args[0], args[1], args[2], args[3])
  }

  /** A Go runtime panic (here an index out of range) ends the process with this status. */
  const PanicExitCode: int := 2

  const AllDeletedTitle: string := "all resources have already been deleted"

  /** The flags, the input and the answers of the operating system that mainExitCode depends on. */
  datatype Invocation = Invocation(
    version: bool, dryRun: bool, force: bool,
    fromPipe: bool, args: seq<string>,
    piped: seq<string>, scanFailed: bool, closeFails: bool,
    ttyOpens: bool)

  /**
   * What one run did: the exit status, the log, whether the confirmation was consulted, and the
   * batch handed to the destroyer (if any).
   */
  datatype MainOutcome = MainOutcome(exitCode: int, log: seq<LogEntry>, consulted: bool, destroyed: Option<seq<Destroyable>>)

  /** The resources a run goes on with, or None when it stops while building them. */
  function InputResources(inv: Invocation, isType: string -> bool): Option<seq<Resource>> {
    if inv.fromPipe then
      match ReadResourcesSpec(inv.piped, inv.scanFailed, isType)
      case Ok(rs) => if inv.closeFails then None else Some(rs)
      case Err(_) => None
    else if |inv.args| >= 4 then Some([ArgResource(inv.args)])
    else None
  }

  /** The listing shown before deleting, which force leaves out. */
  function ShownLog(states: seq<Eligible>, force: bool): seq<LogEntry> {
    if force then [] else Preview(states)
  }

  /**
   * The outcome of mainExitCode's last phase (lines 113-150) for the refreshed resources:
   * without force, the listing comes first and an empty list ends the run; with dry run nothing
   * more happens; otherwise /dev/tty is opened (log.Fatalf when it cannot be), the confirmation
   * is consulted, and only a positive answer hands the resources to the destroyer.
   */
  predicate DeletionPhase(inv: Invocation, states: seq<Eligible>, confirm: bool -> bool,
                          destroy: (seq<Destroyable>, nat) -> nat, o: MainOutcome)
  {
    var shown := ShownLog(states, inv.force);
    (!inv.force && states == [] ==>
      o == MainOutcome(0, [Title(ShowingTitle), Title(AllDeletedTitle)], false, None)) &&
    ((inv.force || states != []) && inv.dryRun ==>
      o == MainOutcome(0, shown, false, None)) &&
    ((inv.force || states != []) && !inv.dryRun && !inv.ttyOpens ==>
      o == MainOutcome(1, shown, false, None)) &&
    ((inv.force || states != []) && !inv.dryRun && inv.ttyOpens && !confirm(inv.force) ==>
      o == MainOutcome(0, shown, true, None)) &&
    ((inv.force || states != []) && !inv.dryRun && inv.ttyOpens && confirm(inv.force) ==>
      o == MainOutcome(0, shown + [Title(StartingTitle), Title(DeletedTitle(destroy(ConvertToDestroyable(states), DestroyParallelism)))],
                       true, Some(ConvertToDestroyable(states))))
  }

  /**
   * mainExitCode from the version flag on. The collaborators are parameters: isType
   * (resource.IsType), providerPool (whether util.NewProviderPool succeeds for the keys),
   * getStates (resource.GetStates), confirm (UserConfirmedDeletion on /dev/tty, given force) and
   * destroy (DestroyResources, returning the number deleted).
   */
  method MainExitCode(inv: Invocation, isType: string -> bool, providerPool: seq<ClientKey> -> bool,
                      getStates: seq<Resource> -> seq<Eligible>, confirm: bool -> bool,
                      destroy: (seq<Destroyable>, nat) -> nat)
    returns (o: MainOutcome)
    ensures inv.version ==> o == MainOutcome(0, [], false, None)
    ensures !inv.version && !inv.fromPipe && |inv.args| < 3 ==> o == MainOutcome(1, [], false, None)
    ensures !inv.version && !inv.fromPipe && |inv.args| == 3 ==> o == MainOutcome(PanicExitCode, [], false, None)
    ensures !inv.version && inv.fromPipe && InputResources(inv, isType).None? ==> o == MainOutcome(1, [], false, None)
    ensures !inv.version && InputResources(inv, isType).Some? ==>
      var rs := InputResources(inv, isType).value;
      (!providerPool(KeysOf(rs)) ==> o == MainOutcome(1, [], false, None)) &&
      (providerPool(KeysOf(rs)) ==> DeletionPhase(inv, getStates(rs), confirm, destroy, o))
  {
    if inv.version {
      return MainOutcome(0, [], false, None);
    }

    var resources: seq<Resource> := [];
    if inv.fromPipe {
      var readResources := ReadResources(inv.piped, inv.scanFailed, isType);
      if readResources.Err? {
        // log.Fatal
        return MainOutcome(1, [], false, None);
      }
      resources := readResources.value;
      if inv.closeFails {
        return MainOutcome(1, [], false, None);
      }
    } else {
      if |inv.args| < 3 {
        return MainOutcome(1, [], false, None);
      }
      if |inv.args| < 4 {
        // args[3] is out of range
        return MainOutcome(PanicExitCode, [], false, None);
      }
      resources := resources + [Resource(inv.args[0], inv.args[1], inv.args[2], inv.args[3])];
      assert resources == [ArgResource(inv.args)];
    }
    assert InputResources(inv, isType) == Some(resources);

    var clientKeys := ClientKeys(resources);
    if !providerPool(clientKeys) {
      return MainOutcome(1, [], false, None);
    }

    var resourcesWithUpdatedState := getStates(resources);
    o := ShowAndDestroy(inv, resourcesWithUpdatedState, confirm, destroy);
  }

  /** Lines 113-150 of mainExitCode: list, then (unless dry run) confirm and destroy. */
  method ShowAndDestroy(inv: Invocation, resourcesWithUpdatedState: seq<Eligible>, confirm: bool -> bool,
                        destroy: (seq<Destroyable>, nat) -> nat)
    returns (o: MainOutcome)
    ensures DeletionPhase(inv, resourcesWithUpdatedState, confirm, destroy, o)
  {
    var log: seq<LogEntry> := [];

    if !inv.force {
      log := log + [Title(ShowingTitle)];
      var i := 0;
      while i < |resourcesWithUpdatedState|
        invariant 0 <= i <= |resourcesWithUpdatedState|
        invariant log == [Title(ShowingTitle)] + Listing(Warn, resourcesWithUpdatedState[..i])
      {
        log := log + [Listed(Warn, resourcesWithUpdatedState[i].desc)];
        i := i + 1;
      }
      assert resourcesWithUpdatedState[..i] == resourcesWithUpdatedState;

      if |resourcesWithUpdatedState| == 0 {
        log := log + [Title(AllDeletedTitle)];
        return MainOutcome(0, log, false, None);
      }

      log := log + [Title(WouldDeleteTitle(|resourcesWithUpdatedState|))];
    }
    assert log == ShownLog(resourcesWithUpdatedState, inv.force);

    if !inv.dryRun {
      if !inv.ttyOpens {
        // log.Fatalf
        return MainOutcome(1, log, false, None);
      }
      if !confirm(inv.force) {
        return MainOutcome(0, log, true, None);
      }
      log := log + [Title(StartingTitle)];
      var batch := ConvertToDestroyable(resourcesWithUpdatedState);
      var numDeletedResources := destroy(batch, DestroyParallelism);
      log := log + [Title(DeletedTitle(numDeletedResources))];
      return MainOutcome(0, log, true, Some(batch));
    }

    return MainOutcome(0, log, false, None);
  }
}
