/**
 * pkg/resource/resource.go: reading piped records (Read), classifying refreshed resources
 * (Update), the total conversion to destroyable resources and the deletion flow (Delete).
 */
module ResourcePkg {
  import opened Wrappers
  import opened Text
  import opened Domain
  import opened ResourceUtil
  import opened Confirm

  /** The profile column's "no profile" sentinel, as awsls prints it. */
  const NotApplicable: string := "N\\A"

  /** awsls's header line starts with this word. */
  const HeaderMarker: string := "TYPE"

  /** Why Read fails: a short line, an unsupported type, or the scanner's own error. */
  datatype ReadError = MalformedLine | NoResourceType(rType: string) | ScannerFailed

  // ---------------------------------------------------------------- Read

  /** Lines Read ignores: empty lines and awsls's header line. */
  predicate Skipped(line: string) {
    line == "\n" || line == "" || HasPrefix(line, HeaderMarker)
  }

  function NormalizeProfile(profile: string): string {
    if profile == NotApplicable then "" else profile
  }

  /** One line of Read's loop that is not skipped. */
  function ParseLine(line: string, isType: string -> bool): (r: Result<Resource, ReadError>)
    ensures r.Ok? ==> HasPrefix(r.value.rtype, AwsPrefix) && isType(r.value.rtype)
    ensures r.Err? ==> r.error != ScannerFailed
  {
    var fields := Fields(line);
    if |fields| < 4 then Err(MalformedLine)
    else
      var rType := PrefixResourceType(fields[0]);
      if !isType(rType) then Err(NoResourceType(rType))
      else Ok(Resource(rType, fields[1], NormalizeProfile(fields[2]), fields[3]))
  }

  /**
   * The error path: a line fails as malformed exactly when it has fewer than four fields, and
   * one with four or more fails naming its prefixed type exactly when that type is unsupported.
   */
  lemma ParseLineErrors(line: string, isType: string -> bool)
    ensures ParseLine(line, isType) == Err(MalformedLine) <==> |Fields(line)| < 4
    ensures |Fields(line)| >= 4 ==>
      (ParseLine(line, isType) == Err(NoResourceType(PrefixResourceType(Fields(line)[0]))) <==>
       !isType(PrefixResourceType(Fields(line)[0])))
  {
  }

  /** The resources read so far in front of the outcome of the rest of the input (for either reader's errors). */
  function Prepend<E>(done: seq<Resource>, rest: Result<seq<Resource>, E>): Result<seq<Resource>, E> {
    match rest
    case Ok(rs) => Ok(done + rs)
    case Err(e) => Err(e)
  }

  /**
   * What Read returns for the scanned lines; scanFailed says whether the scanner stopped with
   * an error after them.
   */
  function ReadSpec(lines: seq<string>, scanFailed: bool, isType: string -> bool): (r: Result<seq<Resource>, ReadError>)
    ensures r.Ok? ==> |r.value| <= |lines|
    ensures r.Ok? ==> forall i :: 0 <= i < |r.value| ==> HasPrefix(r.value[i].rtype, AwsPrefix) && isType(r.value[i].rtype)
  {
    if lines == [] then (if scanFailed then Err(ScannerFailed) else Ok([]))
    else if Skipped(lines[0]) then ReadSpec(lines[1..], scanFailed, isType)
    else match ParseLine(lines[0], isType)
      case Err(e) => Err(e)
      case Ok(res) => Prepend([res], ReadSpec(lines[1..], scanFailed, isType))
  }

  lemma PrependNothing<E>(rest: Result<seq<Resource>, E>)
    ensures Prepend([], rest) == rest
  {
    match rest {
      case Ok(rs) => assert [] + rs == rs;
      case Err(_) =>
    }
  }

  lemma PrependOneMore<E>(done: seq<Resource>, res: Resource, rest: Result<seq<Resource>, E>)
    ensures Prepend(done, Prepend([res], rest)) == Prepend(done + [res], rest)
  {
    match rest {
      case Ok(rs) => assert done + [res] + rs == done + ([res] + rs);
      case Err(_) =>
    }
  }

  /** One more line of input, as Read's loop sees it. */
  lemma ReadStep(lines: seq<string>, i: nat, scanFailed: bool, isType: string -> bool)
    requires i < |lines|
    ensures ReadSpec(lines[i..], scanFailed, isType) ==
      if Skipped(lines[i]) then ReadSpec(lines[i + 1..], scanFailed, isType)
      else match ParseLine(lines[i], isType)
        case Err(e) => Err(e)
        case Ok(res) => Prepend([res], ReadSpec(lines[i + 1..], scanFailed, isType))
  {
    assert lines[i..][1..] == lines[i + 1..];
  }

  /** Read: parse `<resource_type> <resource_id> <profile> <region>` lines, failing fast. */
  method Read(lines: seq<string>, scanFailed: bool, isType: string -> bool) returns (r: Result<seq<Resource>, ReadError>)
    ensures r == ReadSpec(lines, scanFailed, isType)
  {
    var result: seq<Resource> := [];
    var i := 0;
    assert lines[0..] == lines;
    PrependNothing(ReadSpec(lines, scanFailed, isType));
    while i < |lines|
      invariant 0 <= i <= |lines|
      invariant ReadSpec(lines, scanFailed, isType) == Prepend(result, ReadSpec(lines[i..], scanFailed, isType))
    {
      var line := lines[i];
      ghost var rest := ReadSpec(lines[i + 1..], scanFailed, isType);
      ReadStep(lines, i, scanFailed, isType);
      if line == "\n" || line == "" || HasPrefix(line, HeaderMarker) {
        i := i + 1;
        continue;
      }
      var rAttrs := Fields(line);
      if |rAttrs| < 4 {
        return Err(MalformedLine);
      }
      var rType := PrefixResourceType(rAttrs[0]);
      if !isType(rType) {
        return Err(NoResourceType(rType));
      }
      var profile := rAttrs[2];
      if profile == NotApplicable {
        profile := "";
      }
      var res := Resource(rType, rAttrs[1], profile, rAttrs[3]);
      PrependOneMore(result, res, rest);
      result := result + [res];
      i := i + 1;
    }
    assert lines[i..] == [];
    assert result + [] == result;
    assert ReadSpec(lines[i..], scanFailed, isType) == if scanFailed then Err(ScannerFailed) else Ok([]);
    if scanFailed {
      return Err(ScannerFailed);
    }
    return Ok(result);
  }

  /** The lines Read does not skip, in order. */
  function Kept(lines: seq<string>): (ks: seq<string>)
    ensures |ks| <= |lines|
  {
    if lines == [] then []
    else if Skipped(lines[0]) then Kept(lines[1..])
    else [lines[0]] + Kept(lines[1..])
  }

  /** Read succeeds exactly when the scanner did not fail and every kept line parses. */
  lemma {:induction false} ReadOkIff(lines: seq<string>, scanFailed: bool, isType: string -> bool)
    ensures ReadSpec(lines, scanFailed, isType).Ok? <==>
      !scanFailed && forall k :: 0 <= k < |lines| && !Skipped(lines[k]) ==> ParseLine(lines[k], isType).Ok?
  {
    if lines != [] {
      ReadOkIff(lines[1..], scanFailed, isType);
      assert forall k :: 1 <= k < |lines| ==> lines[k] == lines[1..][k - 1];
    }
  }

  /** On success, Read returns one resource per kept line, in input order. */
  lemma {:induction false} ReadOkContents(lines: seq<string>, scanFailed: bool, isType: string -> bool)
    requires ReadSpec(lines, scanFailed, isType).Ok?
    ensures var rs := ReadSpec(lines, scanFailed, isType).value;
      |rs| == |Kept(lines)| &&
      forall i :: 0 <= i < |rs| ==> ParseLine(Kept(lines)[i], isType) == Ok(rs[i])
  {
    if lines != [] {
      var tail := lines[1..];
      var rs := ReadSpec(lines, scanFailed, isType).value;
      if Skipped(lines[0]) {
        assert ReadSpec(lines, scanFailed, isType) == ReadSpec(tail, scanFailed, isType);
        assert Kept(lines) == Kept(tail);
        ReadOkContents(tail, scanFailed, isType);
      } else {
        var res := ParseLine(lines[0], isType).value;
        assert ReadSpec(lines, scanFailed, isType) == Prepend([res], ReadSpec(tail, scanFailed, isType));
        var more := ReadSpec(tail, scanFailed, isType).value;
        assert rs == [res] + more;
        ReadOkContents(tail, scanFailed, isType);
        assert Kept(lines) == [lines[0]] + Kept(tail);
        ParsedCons(lines[0], res, Kept(tail), more, isType);
      }
    }
  }

  /** One more parsed kept line in front keeps lines and resources paired up. */
  lemma {:induction false} ParsedCons(line: string, res: Resource, kept: seq<string>, rs: seq<Resource>, isType: string -> bool)
    requires ParseLine(line, isType) == Ok(res)
    requires |rs| == |kept| && forall i :: 0 <= i < |rs| ==> ParseLine(kept[i], isType) == Ok(rs[i])
    ensures forall i :: 0 <= i < |rs| + 1 ==> ParseLine(([line] + kept)[i], isType) == Ok(([res] + rs)[i])
  {
    var lines, parsed := [line] + kept, [res] + rs;
    forall i | 0 <= i < |rs| + 1 ensures ParseLine(lines[i], isType) == Ok(parsed[i]) {
      if i == 0 {
        assert lines[i] == line && parsed[i] == res;
      } else {
        assert lines[i] == kept[i - 1] && parsed[i] == rs[i - 1];
      }
    }
  }

  /**
   * Fail fast: the first kept line that does not parse decides the error, whatever the lines
   * before it produced and whatever follows.
   */
  lemma {:induction false} ReadFirstErrorWins(lines: seq<string>, k: nat, scanFailed: bool, isType: string -> bool)
    requires k < |lines| && !Skipped(lines[k]) && ParseLine(lines[k], isType).Err?
    requires forall j :: 0 <= j < k ==> Skipped(lines[j]) || ParseLine(lines[j], isType).Ok?
    ensures ReadSpec(lines, scanFailed, isType) == Err(ParseLine(lines[k], isType).error)
  {
    if k > 0 {
      assert forall j :: 0 <= j < k - 1 ==> lines[1..][j] == lines[j + 1];
      ReadFirstErrorWins(lines[1..], k - 1, scanFailed, isType);
    }
  }

  /** A kept line with fewer than four fields makes the whole read fail. */
  lemma ReadFailsOnShortLine(before: seq<string>, line: string, after: seq<string>, scanFailed: bool, isType: string -> bool)
    requires !Skipped(line) && |Fields(line)| < 4
    ensures ReadSpec(before + [line] + after, scanFailed, isType).Err?
  {
    ReadOkIff(before + [line] + after, scanFailed, isType);
    assert (before + [line] + after)[|before|] == line;
  }

  /** A skipped line adds no resource and raises no error, wherever it stands. */
  lemma {:induction false} ReadSkipsLine(before: seq<string>, line: string, after: seq<string>, scanFailed: bool, isType: string -> bool)
    requires Skipped(line)
    ensures ReadSpec(before + [line] + after, scanFailed, isType) == ReadSpec(before + after, scanFailed, isType)
  {
    if before == [] {
      assert (before + [line] + after)[1..] == after;
      assert before + after == after;
    } else {
      assert (before + [line] + after)[1..] == before[1..] + [line] + after;
      assert (before + after)[1..] == before[1..] + after;
      ReadSkipsLine(before[1..], line, after, scanFailed, isType);
    }
  }

  /** A parsed record carries the type prefixed, the second and fourth fields, and the profile normalised. */
  lemma ParseLineFields(line: string, isType: string -> bool)
    requires ParseLine(line, isType).Ok?
    ensures var r := ParseLine(line, isType).value; var f := Fields(line);
      r.rtype == PrefixResourceType(f[0]) && r.id == f[1] && r.region == f[3] &&
      (r.profile == "" <==> f[2] == NotApplicable) &&
      (f[2] != NotApplicable ==> r.profile == f[2])
  {
  }

  /** Fields beyond the fourth are ignored. */
  lemma ParseLineIgnoresExtraFields(line1: string, line2: string, isType: string -> bool)
    requires |Fields(line1)| >= 4 && |Fields(line2)| >= 4
    requires Fields(line1)[..4] == Fields(line2)[..4]
    ensures ParseLine(line1, isType) == ParseLine(line2, isType)
  {
    assert forall i :: 0 <= i < 4 ==> Fields(line1)[i] == Fields(line1)[..4][i];
    assert forall i :: 0 <= i < 4 ==> Fields(line2)[i] == Fields(line2)[..4][i];
  }

  // A record as awsls prints it; reading such lines gives the resources back.

  /** The line that describes r, with the sentinel standing for an empty profile. */
  function RecordLine(r: Resource): string {
    JoinFields([r.rtype, r.id, if r.profile == "" then NotApplicable else r.profile, r.region])
  }

  /** A resource that can be written as a record: no field is empty or holds a space. */
  predicate Printable(r: Resource) {
    IsToken(r.rtype) && IsToken(r.id) && IsToken(r.region) &&
    (r.profile == "" || IsToken(r.profile)) && r.profile != NotApplicable
  }

  lemma ParseRecordLine(r: Resource, isType: string -> bool)
    requires Printable(r)
    ensures var t := PrefixResourceType(r.rtype);
      ParseLine(RecordLine(r), isType) == if isType(t) then Ok(r.(rtype := t)) else Err(NoResourceType(t))
  {
    var p := if r.profile == "" then NotApplicable else r.profile;
    assert IsToken(NotApplicable);
    FieldsOfJoin([r.rtype, r.id, p, r.region]);
  }

  lemma RecordLineColumns(r: Resource)
    ensures RecordLine(r) == r.rtype + " " + r.id + " " + (if r.profile == "" then NotApplicable else r.profile) + " " + r.region
  {
    var ws := [r.rtype, r.id, if r.profile == "" then NotApplicable else r.profile, r.region];
    assert ws[1..][1..][1..] == [r.region];
    assert JoinFields(ws[1..][1..]) == ws[2] + " " + r.region;
    assert JoinFields(ws[1..]) == r.id + " " + ws[2] + " " + r.region;
  }

  function RecordLines(rs: seq<Resource>): (ls: seq<string>)
    ensures |ls| == |rs|
  {
    seq(|rs|, i requires 0 <= i < |rs| => RecordLine(rs[i]))
  }

  /** A kept line that parses contributes its resource in front of the rest. */
  lemma ReadKeptLine(line: string, rest: seq<string>, scanFailed: bool, isType: string -> bool)
    requires !Skipped(line) && ParseLine(line, isType).Ok?
    ensures ReadSpec([line] + rest, scanFailed, isType) ==
      Prepend([ParseLine(line, isType).value], ReadSpec(rest, scanFailed, isType))
  {
    assert ([line] + rest)[1..] == rest;
  }

  /** A record line is never mistaken for a header or an empty line. */
  lemma RecordLineKept(r: Resource)
    requires Printable(r) && !HasPrefix(r.rtype, HeaderMarker)
    ensures !Skipped(RecordLine(r))
  {
    RecordLineColumns(r);
    var line := RecordLine(r);
    if |r.rtype| < |HeaderMarker| {
      assert line[|r.rtype|] == ' ' != HeaderMarker[|r.rtype|];
    } else {
      assert line[..4] == r.rtype[..4];
    }
  }

  /** The resources as Read returns them: every type prefixed. */
  function PrefixTypes(rs: seq<Resource>): (ps: seq<Resource>)
    ensures |ps| == |rs|
  {
    seq(|rs|, i requires 0 <= i < |rs| => rs[i].(rtype := PrefixResourceType(rs[i].rtype)))
  }

  /** A resource whose record Read accepts. */
  predicate ReadableRecord(r: Resource, isType: string -> bool) {
    Printable(r) && !HasPrefix(r.rtype, HeaderMarker) && isType(PrefixResourceType(r.rtype))
  }

  /**
   * Reading the records of resources, bare type names or not, gives exactly those resources
   * with their types prefixed, in order.
   */
  lemma {:induction false} ReadRecordLines(rs: seq<Resource>, isType: string -> bool)
    requires forall i :: 0 <= i < |rs| ==> ReadableRecord(rs[i], isType)
    ensures ReadSpec(RecordLines(rs), false, isType) == Ok(PrefixTypes(rs))
  {
    if rs != [] {
      var r := rs[0];
      RecordLinesCons(rs);
      PrefixTypesCons(rs);
      ParseRecordLine(r, isType);
      RecordLineKept(r);
      ReadRecordLines(rs[1..], isType);
      ReadKeptLine(RecordLine(r), RecordLines(rs[1..]), false, isType);
    }
  }

  lemma RecordLinesCons(rs: seq<Resource>)
    requires rs != []
    ensures RecordLines(rs) == [RecordLine(rs[0])] + RecordLines(rs[1..])
  {
  }

  lemma PrefixTypesCons(rs: seq<Resource>)
    requires rs != []
    ensures PrefixTypes(rs) == [rs[0].(rtype := PrefixResourceType(rs[0].rtype))] + PrefixTypes(rs[1..])
  {
  }

  /** Records whose types already carry the prefix come back unchanged. */
  lemma ReadPrefixedRecordLines(rs: seq<Resource>, isType: string -> bool)
    requires forall i :: 0 <= i < |rs| ==> ReadableRecord(rs[i], isType) && HasPrefix(rs[i].rtype, AwsPrefix)
    ensures ReadSpec(RecordLines(rs), false, isType) == Ok(rs)
  {
    ReadRecordLines(rs, isType);
    assert PrefixTypes(rs) == rs;
  }

  /** A record of an unsupported type, after readable records, fails the read with that type named. */
  lemma ReadUnsupportedRecord(rs: seq<Resource>, r: Resource, after: seq<string>, scanFailed: bool, isType: string -> bool)
    requires forall i :: 0 <= i < |rs| ==> ReadableRecord(rs[i], isType)
    requires Printable(r) && !HasPrefix(r.rtype, HeaderMarker) && !isType(PrefixResourceType(r.rtype))
    ensures ReadSpec(RecordLines(rs) + [RecordLine(r)] + after, scanFailed, isType) ==
      Err(NoResourceType(PrefixResourceType(r.rtype)))
  {
    var lines := RecordLines(rs) + [RecordLine(r)] + after;
    ParseRecordLine(r, isType);
    RecordLineKept(r);
    forall j | 0 <= j < |rs| ensures ParseLine(lines[j], isType).Ok? {
      ParseRecordLine(rs[j], isType);
    }
    ReadFirstErrorWins(lines, |rs|, scanFailed, isType);
  }

  /** A record with a bare type name (such as "vpc") is read with the prefix added. */
  lemma ReadBareRecordLine(r: Resource, isType: string -> bool)
    requires Printable(r) && !HasPrefix(r.rtype, AwsPrefix) && !HasPrefix(r.rtype, HeaderMarker)
    requires isType(AwsPrefix + r.rtype)
    ensures ReadSpec([RecordLine(r)], false, isType) == Ok([r.(rtype := AwsPrefix + r.rtype)])
  {
    PrefixAdded(r.rtype);
    ParseRecordLine(r, isType);
    RecordLineKept(r);
    var none: seq<string> := [];
    ReadKeptLine(RecordLine(r), none, false, isType);
    assert [RecordLine(r)] + none == [RecordLine(r)];
    var read := r.(rtype := AwsPrefix + r.rtype);
    assert ParseLine(RecordLine(r), isType) == Ok(read);
    assert ReadSpec(none, false, isType) == Ok([]);
    assert [read] + [] == [read];
  }

  // ---------------------------------------------------------------- Update

  /** terraform.UpdateStates runs this many refreshes at a time. */
  const RefreshParallelism: nat := 10

  /** The two results of terraform.UpdateStates. */
  datatype StateRefresh = StateRefresh(withUpdatedState: seq<Refreshed>, errs: seq<string>)

  /** UpdatedResources: the resources still to delete and the refresh errors. */
  datatype UpdatedResources = UpdatedResources(resources: seq<Eligible>, errors: seq<string>)

  const AbsentTitle: string := "the following resources don't exist"

  /** The refreshed resources whose state is not null, in order. */
  function ToDelete(rs: seq<Refreshed>): (r: seq<Eligible>)
    ensures |r| <= |rs|
  {
    if rs == [] then []
    else
      var last := rs[|rs| - 1];
      ToDelete(rs[..|rs| - 1]) + (if last.state.Live? then [last] else [])
  }

  /** The refreshed resources whose state is null, in order. */
  function AlreadyDeleted(rs: seq<Refreshed>): (r: seq<Refreshed>)
    ensures |r| <= |rs|
  {
    if rs == [] then []
    else
      var last := rs[|rs| - 1];
      AlreadyDeleted(rs[..|rs| - 1]) + (if last.state.Null? then [last] else [])
  }

  /** One log line per resource, at the given level. */
  function Listing(level: Level, rs: seq<Refreshed>): (log: seq<LogEntry>)
    ensures |log| == |rs|
  {
    seq(|rs|, i requires 0 <= i < |rs| => Listed(level, rs[i].desc))
  }

  /** What Update logs about the resources that no longer exist. */
  function AbsentReport(absent: seq<Refreshed>): seq<LogEntry> {
    if absent == [] then [] else [Title(AbsentTitle)] + Listing(Info, absent)
  }

  /**
   * Update: refresh the states (a collaborator, given as updateStates), then split the result
   * into resources already deleted, which are logged, and resources to delete, which are returned
   * with the refresh errors.
   */
  method Update(resources: seq<Resource>, updateStates: (seq<Resource>, nat) -> StateRefresh)
    returns (updated: UpdatedResources, report: seq<LogEntry>)
    ensures var refresh := updateStates(resources, RefreshParallelism);
      updated == UpdatedResources(ToDelete(refresh.withUpdatedState), refresh.errs) &&
      report == AbsentReport(AlreadyDeleted(refresh.withUpdatedState))
  {
    var refresh := updateStates(resources, RefreshParallelism);
    var withUpdatedState := refresh.withUpdatedState;
    var resourcesAlreadyDeleted: seq<Refreshed> := [];
    var resourcesToDelete: seq<Eligible> := [];
    var i := 0;
    while i < |withUpdatedState|
      invariant 0 <= i <= |withUpdatedState|
      invariant resourcesAlreadyDeleted == AlreadyDeleted(withUpdatedState[..i])
      invariant resourcesToDelete == ToDelete(withUpdatedState[..i])
    {
      var r := withUpdatedState[i];
      assert withUpdatedState[..i + 1][..i] == withUpdatedState[..i];
      if r.state.Null? {
        resourcesAlreadyDeleted := resourcesAlreadyDeleted + [r];
      } else {
        resourcesToDelete := resourcesToDelete + [r];
      }
      i := i + 1;
    }
    assert withUpdatedState[..i] == withUpdatedState;

    report := [];
    if |resourcesAlreadyDeleted| != 0 {
      report := [Title(AbsentTitle)];
    }
    var j := 0;
    while j < |resourcesAlreadyDeleted|
      invariant 0 <= j <= |resourcesAlreadyDeleted|
      invariant report == (if resourcesAlreadyDeleted == [] then [] else [Title(AbsentTitle)])
                          + Listing(Info, resourcesAlreadyDeleted[..j])
    {
      report := report + [Listed(Info, resourcesAlreadyDeleted[j].desc)];
      j := j + 1;
    }
    assert resourcesAlreadyDeleted[..j] == resourcesAlreadyDeleted;

    updated := UpdatedResources(resourcesToDelete, refresh.errs);
  }

  /** Each refreshed resource lands in exactly one class, decided by whether its state is null. */
  lemma {:induction false} UpdateClassifies(rs: seq<Refreshed>, x: Refreshed)
    ensures x in ToDelete(rs) <==> x in rs && x.state.Live?
    ensures x in AlreadyDeleted(rs) <==> x in rs && x.state.Null?
  {
    if rs != [] {
      var init := rs[..|rs| - 1];
      UpdateClassifies(init, x);
      assert rs == init + [rs[|rs| - 1]];
    }
  }

  /** Together the two classes hold every refreshed resource, as often as it was refreshed. */
  lemma {:induction false} UpdatePartitions(rs: seq<Refreshed>)
    ensures multiset(ToDelete(rs)) + multiset(AlreadyDeleted(rs)) == multiset(rs)
  {
    if rs != [] {
      var init := rs[..|rs| - 1];
      var last := rs[|rs| - 1];
      UpdatePartitions(init);
      assert rs == init + [last];
      assert multiset(rs) == multiset(init) + multiset{last};
      if last.state.Live? {
        var live: Eligible := last;
        assert ToDelete(rs) == ToDelete(init) + [live];
        assert AlreadyDeleted(rs) == AlreadyDeleted(init);
        assert multiset(ToDelete(rs)) == multiset(ToDelete(init)) + multiset{live};
      } else {
        assert ToDelete(rs) == ToDelete(init);
        assert AlreadyDeleted(rs) == AlreadyDeleted(init) + [last];
        assert multiset(AlreadyDeleted(rs)) == multiset(AlreadyDeleted(init)) + multiset{last};
      }
    }
  }

  /** The classification keeps input order: it distributes over concatenation. */
  lemma {:induction false} ToDeleteKeepsOrder(a: seq<Refreshed>, b: seq<Refreshed>)
    ensures ToDelete(a + b) == ToDelete(a) + ToDelete(b)
    decreases |b|
  {
    if b == [] {
      assert a + b == a;
    } else {
      var init := b[..|b| - 1];
      assert (a + b)[..|a + b| - 1] == a + init;
      ToDeleteKeepsOrder(a, init);
    }
  }

  /** Nothing is left to delete exactly when every refreshed state is null (a second run after a full deletion). */
  lemma {:induction false} NothingToDeleteIff(rs: seq<Refreshed>)
    ensures ToDelete(rs) == [] <==> forall i :: 0 <= i < |rs| ==> rs[i].state.Null?
  {
    if rs != [] {
      var init := rs[..|rs| - 1];
      NothingToDeleteIff(init);
      assert forall i :: 0 <= i < |init| ==> init[i] == rs[i];
    }
  }

  /** A resource whose state is null is reported as absent. */
  lemma AbsentAreReported(rs: seq<Refreshed>, x: Refreshed)
    requires x in rs && x.state.Null?
    ensures Listed(Info, x.desc) in AbsentReport(AlreadyDeleted(rs))
  {
    UpdateClassifies(rs, x);
    var absent := AlreadyDeleted(rs);
    assert x in absent;
    var i :| 0 <= i < |absent| && absent[i] == x;
    var report := [Title(AbsentTitle)] + Listing(Info, absent);
    assert AbsentReport(absent) == report;
    assert Listing(Info, absent)[i] == Listed(Info, x.desc);
    assert report[i + 1] == Listed(Info, x.desc);
  }

  // ------------------------------------------------------- convertToDestroyable

  /** convertToDestroyable: total, because only a live state carries destroy(). */
  function ConvertToDestroyable(rs: seq<Eligible>): (ds: seq<Destroyable>)
    ensures |ds| == |rs|
    ensures forall i :: 0 <= i < |rs| ==> rs[i] == Refreshed(ds[i].desc, Live(ds[i].handle))
  {
    seq(|rs|, i requires 0 <= i < |rs| => Destroyable(rs[i].desc, rs[i].state.handle))
  }

  /** Everything handed to the destroyer was refreshed with a live state; nothing absent is destroyed. */
  lemma DestroyOnlyLive(rs: seq<Refreshed>)
    ensures forall d :: d in ConvertToDestroyable(ToDelete(rs)) ==>
      Refreshed(d.desc, Live(d.handle)) in rs
  {
    var live := ToDelete(rs);
    forall d | d in ConvertToDestroyable(live) ensures Refreshed(d.desc, Live(d.handle)) in rs {
      var i :| 0 <= i < |live| && ConvertToDestroyable(live)[i] == d;
      UpdateClassifies(rs, live[i]);
    }
  }

  // ---------------------------------------------------------------- Delete

  /** terradozer's DestroyResources runs this many deletions at a time. */
  const DestroyParallelism: nat := 5

  const NoResourcesTitle: string := "no resources found to delete"
  const ShowingTitle: string := "showing resources that would be deleted (dry run)"
  const ForceTitle: string := "Proceeding with deletion and skipping confirmation (Force)"
  const StartingTitle: string := "Starting to delete resources"

  function WouldDeleteTitle(n: nat): string {
    "total number of resources that would be deleted: " + NatToString(n)
  }

  function DeletedTitle(n: nat): string {
    "total number of deleted resources: " + NatToString(n)
  }

  /**
   * What one call of Delete did: its log, whether the user was asked, the batch handed to the
   * destroyer (if any), and how often it sent on its done channel.
   */
  datatype DeleteOutcome = DeleteOutcome(log: seq<LogEntry>, asked: bool, destroyed: Option<seq<Destroyable>>, doneSends: nat)

  /** The deletion policy: the user is asked only when there is something to delete, no dry run, no force. */
  predicate AsksConfirmation(count: nat, force: bool, dryRun: bool) {
    count > 0 && !dryRun && !force
  }

  /** The deletion policy: destroy only with something to delete, no dry run, and force or a confirmation. */
  predicate Destroys(count: nat, force: bool, dryRun: bool, confirmed: bool) {
    count > 0 && !dryRun && (force || confirmed)
  }

  /** The listing shown before anything is deleted. */
  function Preview(rs: seq<Eligible>): seq<LogEntry> {
    [Title(ShowingTitle)] + Listing(Warn, rs) + [Title(WouldDeleteTitle(|rs|))]
  }

  /**
   * Delete: report what would be deleted, then (unless dry run) ask for confirmation (unless
   * forced) and hand the resources to the destroyer; signal done exactly once on every path.
   */
  method Delete(resources: seq<Eligible>, confirmDevice: Device, force: bool, dryRun: bool,
                destroyResources: (seq<Destroyable>, nat) -> nat)
    returns (o: DeleteOutcome)
    ensures o.doneSends == 1
    ensures o.asked <==> AsksConfirmation(|resources|, force, dryRun)
    ensures o.destroyed.Some? <==> Destroys(|resources|, force, dryRun, UserConfirmedDeletion(confirmDevice))
    ensures o.destroyed.Some? ==> o.destroyed.value == ConvertToDestroyable(resources)
    ensures resources == [] ==> o.log == [Title(NoResourcesTitle)]
    ensures resources != [] && o.destroyed.None? ==> o.log == Preview(resources)
    ensures o.destroyed.Some? ==>
      o.log == Preview(resources) + (if force then [Title(ForceTitle)] else []) +
               [Title(StartingTitle), Title(DeletedTitle(destroyResources(o.destroyed.value, DestroyParallelism)))]
  {
    var log: seq<LogEntry> := [];
    var doneSends := 0;
    if |resources| == 0 {
      log := log + [Title(NoResourcesTitle)];
      doneSends := doneSends + 1;
      return DeleteOutcome(log, false, None, doneSends);
    }

    if |resources| != 0 {
      log := log + [Title(ShowingTitle)];
    }
    var i := 0;
    while i < |resources|
      invariant 0 <= i <= |resources|
      invariant log == [Title(ShowingTitle)] + Listing(Warn, resources[..i])
    {
      log := log + [Listed(Warn, resources[i].desc)];
      i := i + 1;
    }
    assert resources[..i] == resources;
    log := log + [Title(WouldDeleteTitle(|resources|))];

    var asked := false;
    var destroyed: Option<seq<Destroyable>> := None;
    if !dryRun && |resources| > 0 {
      if !force {
        asked := true;
        if !UserConfirmedDeletion(confirmDevice) {
          doneSends := doneSends + 1;
          return DeleteOutcome(log, asked, destroyed, doneSends);
        }
      } else {
        log := log + [Title(ForceTitle)];
      }
      log := log + [Title(StartingTitle)];
      var batch := ConvertToDestroyable(resources);
      var numDeletedResources := destroyResources(batch, DestroyParallelism);
      destroyed := Some(batch);
      log := log + [Title(DeletedTitle(numDeletedResources))];
    }
    doneSends := doneSends + 1;
    return DeleteOutcome(log, asked, destroyed, doneSends);
  }

  /**
   * The policy in the terms of the acceptance tests: an empty list and a dry run never ask and
   * never destroy (whatever force says); force destroys without asking; otherwise destroying
   * follows the answer.
   */
  lemma DeletionPolicy(count: nat, force: bool, dryRun: bool, confirmed: bool)
    ensures count == 0 ==> !AsksConfirmation(count, force, dryRun) && !Destroys(count, force, dryRun, confirmed)
    ensures dryRun ==> !AsksConfirmation(count, force, dryRun) && !Destroys(count, force, dryRun, confirmed)
    ensures count > 0 && force && !dryRun ==> !AsksConfirmation(count, force, dryRun) && Destroys(count, force, dryRun, confirmed)
    ensures count > 0 && !force && !dryRun ==> AsksConfirmation(count, force, dryRun) && (Destroys(count, force, dryRun, confirmed) <==> confirmed)
  {
  }
}
