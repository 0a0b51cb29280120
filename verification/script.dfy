/** The script generator: validated identifiers are printed into script text that reads back as
    exactly what went in. */
module Script {
  import opened Domain
  import opened Classification
  import opened Lines
  import opened Identifiers

  datatype Target = Target(region: Identifier, resource: Identifier)

  // The rendered point in time; a time without a zone is refused.
  predicate StampChar(c: char) {
    Digit(c) || c == '-' || c == ':' || c == 'T' || c == 'Z'
  }

  type Stamp = s: string | forall c :: c in s ==> StampChar(c) witness "0001-01-01T00:00:00Z"

  datatype When = Naive | At(stamp: Stamp)

  // The fixed shell text around what is printed.
  datatype Templates = Templates(
    notice: seq<string>, common: string, preamble: string,
    investigation: DetectorType -> string, guarded: DetectorType -> string,
    bulkFunctions: string, bulkOpen: string, bulkClose: string)

  // Whole lines that are safe and hold neither an assignment nor a call.
  ghost predicate Silent(s: string) {
    Reads(s, [], [])
  }

  ghost predicate Inert(t: Templates) {
    && (forall l :: l in t.notice ==> PrintableComment(l))
    && Silent(t.common) && Silent(t.preamble) && (forall d :: Silent(t.investigation(d)))
    && (forall d :: Silent(t.guarded(d)))
    && Silent(t.bulkFunctions) && Silent(t.bulkOpen) && Silent(t.bulkClose)
  }

  datatype Failure = InvalidInput | UnsafeContent

  // ---- validation -------------------------------------------------------------------------

  predicate IsValid(other: Digits, id: Identifier, kind: Kind) {
    id.kind == kind && Accepts(other, kind, id.value)
  }

  predicate CommonIsValid(other: Digits, account: Identifier, scan: Option<Identifier>,
                          tagKey: Identifier, tagValue: Identifier)
  {
    && IsValid(other, account, AccountId)
    && (scan.Some? ==> IsValid(other, scan.value, ScanUuid))
    && IsValid(other, tagKey, TagKey) && IsValid(other, tagValue, TagValue)
  }

  function ExpectedKind(detector: DetectorType): Kind {
    match detector
    case UnattachedEbsVolume => VolumeId
    case UnassociatedElasticIp => AllocationId
    case StoppedEc2Instance => InstanceId
    case SnapshotMissingSourceVolume => SnapshotId
  }

  predicate TargetIsValid(other: Digits, detector: DetectorType, target: Target) {
    && IsValid(other, target.region, Region)
    && IsValid(other, target.resource, ExpectedKind(detector))
  }

  /** The id of a valid target names its kind of resource as AWS does. */
  lemma ResourceIdNamesItsKind(other: Digits, detector: DetectorType, target: Target)
    requires TargetIsValid(other, detector, target)
    ensures var id := target.resource.value;
            && (detector.UnattachedEbsVolume? ==> "vol-" <= id)
            && (detector.UnassociatedElasticIp? ==> "eipalloc-" <= id)
            && (detector.StoppedEc2Instance? ==> "i-" <= id)
            && (detector.SnapshotMissingSourceVolume? ==> "snap-" <= id)
  {
  }

  // ---- the header -------------------------------------------------------------------------

  function ScanText(scan: Option<Identifier>): string {
    if scan.Some? then scan.value.value else "none"
  }

  function KindText(kind: ScriptKind): string {
    if kind.Investigation? then "investigation" else "guarded_remediation"
  }

  function DetectorText(detector: DetectorType): string {
    match detector
    case UnattachedEbsVolume => "unattached_ebs_volume"
    case UnassociatedElasticIp => "unassociated_elastic_ip"
    case StoppedEc2Instance => "stopped_ec2_instance"
    case SnapshotMissingSourceVolume => "snapshot_missing_source_volume"
  }

  // What a header says; the resource, or the list of targets.
  datatype Heading = Heading(
    title: string, kind: ScriptKind, detector: string, stamp: Stamp, scan: Option<Identifier>,
    account: Identifier, region: string, resource: Option<string>,
    targets: seq<(DetectorType, Target)>)

  datatype Caption =
    | Title
    | Kind
    | Detector
    | Generated
    | Scan
    | Account
    | InRegion
    | One
    | Many
    | Each

  function Words(caption: Caption): string {
    match caption
    case Title => "# Generated by CloudZombie - "
    case Kind => "# Kind:             "
    case Detector => "# Detector:         "
    case Generated => "# Generated at:     "
    case Scan => "# Scan ID:          "
    case Account => "# Expected account: "
    case InRegion => "# Region:           "
    case One => "# Resource:         "
    case Many => "# Resources:"
    case Each => "#   "
  }

  function TargetText(target: Target): string {
    target.region.value + "  " + target.resource.value
  }

  function TargetLine(target: Target): string {
    Words(Each) + TargetText(target)
  }

  function TargetLines(targets: seq<(DetectorType, Target)>): seq<string> {
    seq(|targets|, i requires 0 <= i < |targets| => TargetLine(targets[i].1))
  }

  function HeadLines(h: Heading): seq<string> {
    [Words(Title) + h.title,
     Words(Kind) + KindText(h.kind),
     Words(Detector) + h.detector,
     Words(Generated) + h.stamp,
     Words(Scan) + ScanText(h.scan),
     Words(Account) + h.account.value,
     Words(InRegion) + h.region]
  }

  function ResourceLines(h: Heading): seq<string> {
    match h.resource
    case Some(resource) => [Words(One) + resource]
    case None => [Words(Many)] + TargetLines(h.targets)
  }

  function HeaderLines(h: Heading, notice: seq<string>): seq<string> {
    HeadLines(h) + ResourceLines(h) + notice
  }

  /** What the lines of a header say. */
  lemma HeadLinesExactly(h: Heading)
    ensures var kind := if h.kind.Investigation? then "investigation" else "guarded_remediation";
            var scan := if h.scan.Some? then h.scan.value.value else "none";
            HeadLines(h) == ["# Generated by CloudZombie - " + h.title,
                             "# Kind:             " + kind,
                             "# Detector:         " + h.detector,
                             "# Generated at:     " + h.stamp,
                             "# Scan ID:          " + scan,
                             "# Expected account: " + h.account.value,
                             "# Region:           " + h.region]
  {
  }

  method Header(h: Heading, notice: seq<string>) returns (header: string)
    ensures header == Text(HeaderLines(h, notice))
  {
    hide Text, Join, TargetLine, Words;
    var lines := HeadLines(h);
    if h.resource.Some? {
      lines := lines + [Words(One) + h.resource.value];
    } else {
      hide HeadLines;
      lines := lines + [Words(Many)];
      for i := 0 to |h.targets|
        invariant lines == HeadLines(h) + ([Words(Many)] + TargetLines(h.targets)[..i])
      {
        lines := lines + [TargetLine(h.targets[i].1)];
      }
      assert TargetLines(h.targets)[..|h.targets|] == TargetLines(h.targets);
    }
    lines := lines + notice;
    JoinIsText(lines);
    header := Join(lines + [""]);
  }

  predicate PrintableText(s: string) {
    forall c :: c in s ==> Printable(c)
  }

  ghost predicate HeadingIsPrintable(h: Heading) {
    && PrintableText(h.title) && PrintableText(h.detector) && PrintableText(h.stamp)
    && PrintableText(ScanText(h.scan)) && PrintableText(h.account.value)
    && PrintableText(h.region) && (h.resource.Some? ==> PrintableText(h.resource.value))
    && forall t :: t in h.targets ==>
         PrintableText(t.1.region.value) && PrintableText(t.1.resource.value)
  }

  predicate PrintableComment(line: string) {
    Comment(line) && PrintableText(line)
  }

  lemma ShortWordsAreComments(caption: Caption)
    requires caption in {InRegion, One, Many, Each}
    ensures PrintableComment(Words(caption))
  {
  }

  lemma LongWordsAreComments(caption: Caption)
    requires caption in {Title, Account}
    ensures PrintableComment(Words(caption))
  {
  }

  lemma OtherWordsAreComments(caption: Caption)
    requires caption in {Kind, Detector, Generated, Scan}
    ensures PrintableComment(Words(caption))
  {
  }

  lemma WordsAreComments(caption: Caption)
    ensures PrintableComment(Words(caption))
  {
    hide Words, PrintableComment;
    match caption
    case Title => LongWordsAreComments(caption);
    case Account => LongWordsAreComments(caption);
    case Kind => OtherWordsAreComments(caption);
    case Detector => OtherWordsAreComments(caption);
    case Generated => OtherWordsAreComments(caption);
    case Scan => OtherWordsAreComments(caption);
    case _ => ShortWordsAreComments(caption);
  }

  lemma CommentLine(caption: Caption, rest: string)
    requires PrintableText(rest)
    ensures PrintableComment(Words(caption) + rest)
  {
    hide Words, Printable;
    WordsAreComments(caption);
  }

  lemma KindTextIsPrintable(kind: ScriptKind)
    ensures PrintableText(KindText(kind))
  {
  }

  lemma DetectorTextIsPrintable(detector: DetectorType)
    ensures PrintableText(DetectorText(detector))
  {
  }

  lemma StampIsPrintable(stamp: Stamp)
    ensures PrintableText(stamp)
  {
  }

  lemma HeadLinesAreComments(h: Heading)
    requires HeadingIsPrintable(h)
    ensures forall l :: l in HeadLines(h) ==> PrintableComment(l)
  {
    hide Words, PrintableComment, PrintableText, KindText;
    KindTextIsPrintable(h.kind);
    CommentLine(Title, h.title);
    CommentLine(Kind, KindText(h.kind));
    CommentLine(Detector, h.detector);
    CommentLine(Generated, h.stamp);
    CommentLine(Scan, ScanText(h.scan));
    CommentLine(Account, h.account.value);
    CommentLine(InRegion, h.region);
  }

  lemma ResourceLinesAreComments(h: Heading)
    requires HeadingIsPrintable(h)
    ensures forall l :: l in ResourceLines(h) ==> PrintableComment(l)
  {
    hide Words, PrintableComment;
    if h.resource.Some? {
      CommentLine(One, h.resource.value);
    } else {
      WordsAreComments(Many);
      forall l | l in TargetLines(h.targets)
        ensures PrintableComment(l)
      {
        var i :| 0 <= i < |h.targets| && l == TargetLine(h.targets[i].1);
        assert h.targets[i] in h.targets;
        CommentLine(Each, TargetText(h.targets[i].1));
      }
    }
  }

  lemma CommentsAreSilentText(lines: seq<string>)
    requires forall l :: l in lines ==> PrintableComment(l)
    ensures Silent(Text(lines))
  {
    assert forall l :: l in lines ==> Comment(l) && PrintableText(l);
    hide Reads, WellFormed, AssignmentsIn, CallsIn, Comment, Printable, Text, PrintableComment;
    CommentsAreSilent(lines);
    LinesRead(lines);
  }

  // A header of printable parts is silent: it holds comments only.
  lemma HeaderIsSilent(h: Heading, notice: seq<string>)
    requires HeadingIsPrintable(h) && forall l :: l in notice ==> PrintableComment(l)
    ensures Silent(Text(HeaderLines(h, notice)))
  {
    hide HeadLines, ResourceLines, Text, PrintableComment, HeadingIsPrintable;
    HeadLinesAreComments(h);
    ResourceLinesAreComments(h);
    CommentsAreSilentText(HeaderLines(h, notice));
  }

  // ---- assignments and calls --------------------------------------------------------------

  datatype Variable =
    | ExpectedAccount
    | RegionOf
    | Resource(detector: DetectorType)
    | IgnoreKey
    | IgnoreValue
    | StackKey

  function Name(v: Variable): string {
    match v
    case ExpectedAccount => "EXPECTED_ACCOUNT_ID"
    case RegionOf => "REGION"
    case Resource(UnattachedEbsVolume) => "VOLUME_ID"
    case Resource(UnassociatedElasticIp) => "ALLOCATION_ID"
    case Resource(StoppedEc2Instance) => "INSTANCE_ID"
    case Resource(SnapshotMissingSourceVolume) => "SNAPSHOT_ID"
    case IgnoreKey => "IGNORE_TAG_KEY"
    case IgnoreValue => "IGNORE_TAG_VALUE"
    case StackKey => "CLOUDFORMATION_TAG_KEY"
  }

  function StackTag(): string { "aws:cloudformation:stack-name" }

  lemma ResourceNameIsName(detector: DetectorType)
    ensures NameText(Name(Resource(detector)))
  {
  }

  lemma NameIsName(v: Variable)
    ensures NameText(Name(v))
  {
    hide Name, NameText;
    if v.Resource? {
      ResourceNameIsName(v.detector);
    } else {
      OtherNameIsName(v);
    }
  }

  lemma OtherNameIsName(v: Variable)
    requires !v.Resource?
    ensures NameText(Name(v))
  {
  }

  lemma StackTagIsSafe()
    ensures SafeText(StackTag())
  {
  }

  // What goes into every script.
  datatype Job = Job(
    account: Identifier, scan: Option<Identifier>, generatedAt: When, tagKey: Identifier,
    tagValue: Identifier)

  function TagPairs(job: Job): seq<(string, string)> {
    [(Name(IgnoreKey), job.tagKey.value), (Name(IgnoreValue), job.tagValue.value),
     (Name(StackKey), StackTag())]
  }

  // What a script for one finding is to assign.
  function Expected(kind: ScriptKind, detector: DetectorType, job: Job, target: Target)
    : seq<(string, string)>
  {
    [(Name(ExpectedAccount), job.account.value), (Name(RegionOf), target.region.value),
     (Name(Resource(detector)), target.resource.value)]
    + if kind.Investigation? then [] else TagPairs(job)
  }

  function Assign(text: string, name: string, value: string): string {
    text + (ReadonlyLine(name, value) + "\n")
  }

  lemma OneMoreLine(lines: seq<string>, line: string)
    ensures Text(lines + [line]) == Text(lines) + (line + "\n")
  {
    TextAppend(lines, [line]);
    assert [line][1..] == [];
    assert Text([]) == "";
    assert Text([line]) == line + "\n" + "";
  }

  lemma OneMorePair(pairs: seq<(string, string)>, name: string, value: string)
    ensures Assign(Text(ReadonlyLines(pairs)), name, value)
         == Text(ReadonlyLines(pairs + [(name, value)]))
  {
    hide Text, ReadonlyLine;
    OneMoreLine(ReadonlyLines(pairs), ReadonlyLine(name, value));
    assert ReadonlyLines(pairs + [(name, value)])
        == ReadonlyLines(pairs) + [ReadonlyLine(name, value)];
  }

  method AssignAll(pairs: seq<(string, string)>) returns (text: string)
    ensures text == Text(ReadonlyLines(pairs))
  {
    hide Text, ReadonlyLine, Assign, ReadonlyLines;
    text := "";
    NoText();
    assert pairs[..0] == [];
    for i := 0 to |pairs|
      invariant text == Text(ReadonlyLines(pairs[..i]))
    {
      OneMorePair(pairs[..i], pairs[i].0, pairs[i].1);
      assert pairs[..i + 1] == pairs[..i] + [(pairs[i].0, pairs[i].1)];
      text := Assign(text, pairs[i].0, pairs[i].1);
    }
    assert pairs[..|pairs|] == pairs;
  }

  lemma NoText()
    ensures Text(ReadonlyLines([])) == "" && Text(CallLines([])) == ""
  {
  }

  lemma PairsRead(pairs: seq<(string, string)>)
    requires forall p :: p in pairs ==> NameText(p.0) && SafeText(p.1)
    ensures Reads(Text(ReadonlyLines(pairs)), pairs, [])
  {
    hide Text, Reads, ReadonlyLines, PlainLine, AssignmentsIn, CallsIn, NameText, SafeText;
    AssignmentsReadBack(pairs);
    LinesRead(ReadonlyLines(pairs));
  }

  lemma CallsRead(calls: seq<Call>)
    requires forall c :: c in calls ==> SafeText(c.region) && SafeText(c.id)
    ensures Reads(Text(CallLines(calls)), [], calls)
  {
    hide Text, Reads, CallLines, PlainLine, AssignmentsIn, CallsIn, SafeText;
    CallsReadBack(calls);
    LinesRead(CallLines(calls));
  }

  // ---- putting a script together ----------------------------------------------------------

  function Shebang(): string { "#!/usr/bin/env bash" }
  function StrictMode(): string { "set -euo pipefail" }

  lemma FixedLines()
    ensures PlainLine(Shebang()) && ParseReadonly(Shebang()) == None && ParseCall(Shebang()) == None
    ensures PlainLine(StrictMode()) && ParseReadonly(StrictMode()) == None
            && ParseCall(StrictMode()) == None
    ensures PlainLine("") && ParseReadonly("") == None && ParseCall("") == None
  {
    hide ParseQuoted, ParseArguments;
    Beginnings();
    assert Shebang()[0] == '#' && StrictMode()[0] == 's';
  }

  lemma SilentLine(line: string)
    requires PlainLine(line) && ParseReadonly(line) == None && ParseCall(line) == None
    ensures Silent(line + "\n")
  {
    hide PlainLine, ParseReadonly, ParseCall, Reads;
    OneMoreLine([], line);
    assert [] + [line] == [line];
    assert Text([]) == "" && "" + (line + "\n") == line + "\n";
    assert [line][1..] == [] && AssignmentsIn([]) == [] && CallsIn([]) == [];
    assert AssignmentsIn([line]) == [] && CallsIn([line]) == [];
    LinesRead([line]);
  }

  lemma SilentTogether(a: string, b: string)
    requires Silent(a) && Silent(b)
    ensures Silent(a + b)
  {
    hide Reads;
    ReadsTogether(a, b, [], [], [], []);
    var none: seq<(string, string)> := [];
    assert none + none == none;
  }

  // Silent text around text that is read changes nothing.
  lemma Surrounded(before: string, middle: string, after: string, pairs: seq<(string, string)>,
                   calls: seq<Call>)
    requires Silent(before) && Reads(middle, pairs, calls) && Silent(after)
    ensures Reads(before + middle + after, pairs, calls)
  {
    hide Reads;
    ReadsTogether(before, middle, [], pairs, [], calls);
    ReadsTogether(before + middle, after, [] + pairs, [], [] + calls, []);
    assert [] + pairs + [] == pairs && [] + calls + [] == calls;
  }

  function Preface(header: string): string {
    Shebang() + "\n" + header + (StrictMode() + "\n")
  }

  lemma PrefaceIsSilent(header: string)
    requires Silent(header)
    ensures Silent(Preface(header))
  {
    hide Reads;
    FixedLines();
    SilentLine(Shebang());
    SilentLine(StrictMode());
    Surrounded(Shebang() + "\n", header, StrictMode() + "\n", [], []);
  }

  lemma UnprintableIsUnsafe(before: string, header: string, after: string, c: char)
    requires c in header && c as int >= 128
    ensures !Safe(before + header + after)
  {
    assert c in before + header + after;
  }

  function TitleOf(kind: ScriptKind): string {
    if kind.Investigation? then "read-only investigation script" else "guarded remediation script"
  }

  function BulkTitle(): string { "guarded bulk remediation script" }
  function BulkDetector(): string { "multiple" }
  function BulkRegion(): string { "multiple; see resources" }

  lemma TitlesArePrintable(kind: ScriptKind)
    ensures PrintableText(TitleOf(kind))
  {
  }

  lemma NoneIsPrintable()
    ensures PrintableText(ScanText(None))
  {
  }

  lemma BulkTextIsPrintable()
    ensures PrintableText(BulkTitle()) && PrintableText(BulkDetector()) && PrintableText(BulkRegion())
  {
  }

  // ---- a script for one finding -----------------------------------------------------------

  predicate Acceptable(other: Digits, kind: ScriptKind, detector: DetectorType, job: Job,
                       target: Target)
  {
    && CommonIsValid(other, job.account, job.scan, job.tagKey, job.tagValue)
    && TargetIsValid(other, detector, target)
    && (kind.GuardedRemediation? ==> HasGuardedScript(detector))
    && job.generatedAt.At?
  }

  function HeadingFor(kind: ScriptKind, detector: DetectorType, job: Job, target: Target): Heading
    requires job.generatedAt.At?
  {
    Heading(TitleOf(kind), kind, DetectorText(detector), job.generatedAt.stamp, job.scan, job.account,
            target.region.value, Some(target.resource.value), [])
  }

  lemma JobIsSafe(other: Digits, job: Job)
    requires CommonIsValid(other, job.account, job.scan, job.tagKey, job.tagValue)
    ensures SafeText(job.account.value) <==> Ascii(job.account.value)
    ensures SafeText(job.tagKey.value) && SafeText(job.tagValue.value)
    ensures PrintableText(ScanText(job.scan))
  {
    hide Accepts, SafeText, Ascii;
    AcceptedIsSafeExactly(other, AccountId, job.account.value);
    AcceptedIsSafeExactly(other, TagKey, job.tagKey.value);
    AcceptedIsSafeExactly(other, TagValue, job.tagValue.value);
    if job.scan.Some? {
      AcceptedIsSafeExactly(other, ScanUuid, job.scan.value.value);
      SafeIsPrintable(job.scan.value.value);
    } else {
      NoneIsPrintable();
    }
  }

  lemma TargetIsSafe(other: Digits, detector: DetectorType, target: Target)
    requires TargetIsValid(other, detector, target)
    ensures SafeText(target.region.value) <==> Ascii(target.region.value)
    ensures SafeText(target.resource.value)
  {
    hide Accepts, SafeText, Ascii;
    AcceptedIsSafeExactly(other, Region, target.region.value);
    AcceptedIsSafeExactly(other, ExpectedKind(detector), target.resource.value);
  }

  lemma HeadingIsFine(other: Digits, kind: ScriptKind, detector: DetectorType, job: Job,
                      target: Target)
    requires Acceptable(other, kind, detector, job, target)
    requires SafeText(job.account.value) && SafeText(target.region.value)
    ensures HeadingIsPrintable(HeadingFor(kind, detector, job, target))
  {
    JobIsSafe(other, job);
    TargetIsSafe(other, detector, target);
    hide SafeText, PrintableText, Acceptable;
    TitlesArePrintable(kind);
    DetectorTextIsPrintable(detector);
    SafeTextIsPrintable(job.account.value);
    SafeTextIsPrintable(target.region.value);
    SafeTextIsPrintable(target.resource.value);
    StampIsPrintable(job.generatedAt.stamp);
  }

  lemma SafeTextIsPrintable(s: string)
    requires SafeText(s)
    ensures PrintableText(s)
  {
    SafeIsPrintable(s);
  }

  function BodyOf(t: Templates, kind: ScriptKind, detector: DetectorType): string {
    if kind.Investigation? then t.preamble + t.investigation(detector) else t.guarded(detector)
  }

  function Content(t: Templates, header: string, assignments: string, rest: string): string {
    Preface(header) + assignments + ("\n" + t.common + rest)
  }

  lemma ContentReads(t: Templates, header: string, pairs: seq<(string, string)>, rest: string,
                     calls: seq<Call>, assignments: string)
    requires Inert(t) && Silent(header) && Reads(assignments, pairs, []) && Reads(rest, [], calls)
    ensures Reads(Content(t, header, assignments, rest), pairs, calls)
  {
    hide Reads, Preface;
    PrefaceIsSilent(header);
    FixedLines();
    SilentLine("");
    assert "" + "\n" == "\n";
    ReadsTogether(Preface(header), assignments, [], pairs, [], []);
    SilentTogether("\n", t.common);
    ReadsTogether("\n" + t.common, rest, [], [], [], calls);
    ReadsTogether(Preface(header) + assignments, "\n" + t.common + rest, [] + pairs, [] + [],
                  [] + [], [] + calls);
    assert [] + pairs + ([] + []) == pairs && [] + [] + ([] + calls) == calls;
  }

  lemma ContentIsUnsafe(t: Templates, lines: seq<string>, assignments: string, rest: string,
                        line: string, c: char)
    requires line in lines && c in line && c as int >= 128
    ensures !Safe(Content(t, Text(lines), assignments, rest))
  {
    hide Safe, Text, Shebang, StrictMode;
    var header := Text(lines);
    CharactersOf(lines);
    var before := Shebang() + "\n";
    var after := (StrictMode() + "\n") + assignments + ("\n" + t.common + rest);
    UnprintableIsUnsafe(before, header, after, c);
    assert before + header + after == Content(t, header, assignments, rest);
  }

  ghost predicate EndsWith(s: string, tail: string) {
    exists before :: s == before + tail
  }

  lemma ContentEnds(t: Templates, header: string, assignments: string, rest: string, tail: string)
    requires tail == t.common + rest
    ensures EndsWith(Content(t, header, assignments, rest), tail)
    ensures Preface(header) <= Content(t, header, assignments, rest)
  {
    hide Preface;
    var content := Content(t, header, assignments, rest);
    assert content == Preface(header) + assignments + "\n" + tail;
  }

  lemma SingleEnds(t: Templates, header: string, assignments: string, kind: ScriptKind,
                   detector: DetectorType)
    ensures var content := Content(t, header, assignments, BodyOf(t, kind, detector));
            && Preface(header) <= content
            && (kind.Investigation? ==>
                  EndsWith(content, t.common + t.preamble + t.investigation(detector)))
            && (kind.GuardedRemediation? ==> EndsWith(content, t.common + t.guarded(detector)))
  {
    hide Content, Preface, EndsWith;
    var body := BodyOf(t, kind, detector);
    if kind.Investigation? {
      assert t.common + body == t.common + t.preamble + t.investigation(detector);
    }
    ContentEnds(t, header, assignments, body, t.common + body);
  }

  /** What a script for one finding assigns: the account, the region and the resource under the name for
      its detector; a guarded script also the two tag names and the stack's tag. */
  lemma ExpectedExactly(kind: ScriptKind, detector: DetectorType, job: Job, target: Target)
    ensures var pairs := Expected(kind, detector, job, target);
            && |pairs| == (if kind.Investigation? then 3 else 6)
            && pairs[0] == ("EXPECTED_ACCOUNT_ID", job.account.value)
            && pairs[1] == ("REGION", target.region.value)
            && pairs[2].1 == target.resource.value
            && (detector.UnattachedEbsVolume? ==> pairs[2].0 == "VOLUME_ID")
            && (detector.UnassociatedElasticIp? ==> pairs[2].0 == "ALLOCATION_ID")
            && (detector.StoppedEc2Instance? ==> pairs[2].0 == "INSTANCE_ID")
            && (detector.SnapshotMissingSourceVolume? ==> pairs[2].0 == "SNAPSHOT_ID")
            && (kind.GuardedRemediation? ==> pairs[3..] == TagPairs(job))
  {
  }

  lemma TagPairsExactly(job: Job)
    ensures TagPairs(job) == [("IGNORE_TAG_KEY", job.tagKey.value),
                              ("IGNORE_TAG_VALUE", job.tagValue.value),
                              ("CLOUDFORMATION_TAG_KEY", "aws:cloudformation:stack-name")]
  {
  }

  /** A script for one finding. It is refused exactly when an identifier is not of its kind, the
      detector has no guarded script, or the time has no zone; the last check fires exactly when the
      account id or the region holds a digit outside ASCII; and every script handed out is safe, reads
      back as exactly the names and values that went in, and runs the text for its kind. */
  method GenerateScript(other: Digits, t: Templates, kind: ScriptKind, detector: DetectorType,
                        job: Job, target: Target)
    returns (r: Result<string, Failure>)
    requires Inert(t)
    ensures r == Err(InvalidInput) <==> !Acceptable(other, kind, detector, job, target)
    ensures r.Ok? <==>
              && Acceptable(other, kind, detector, job, target)
              && Ascii(job.account.value) && Ascii(target.region.value)
    ensures r.Ok? ==> Reads(r.value, Expected(kind, detector, job, target), [])
    ensures r.Ok? ==>
              Preface(Text(HeaderLines(HeadingFor(kind, detector, job, target), t.notice))) <= r.value
    ensures r.Ok? && kind.Investigation? ==>
              EndsWith(r.value, t.common + t.preamble + t.investigation(detector))
    ensures r.Ok? && kind.GuardedRemediation? ==> EndsWith(r.value, t.common + t.guarded(detector))
  {
    hide Preface, EndsWith, Expected, BodyOf, Inert, HasGuardedScript, Ascii;
    hide Reads, Text, Safe, Content, HeaderLines, HeadingIsPrintable, CommonIsValid, TargetIsValid;
    if !CommonIsValid(other, job.account, job.scan, job.tagKey, job.tagValue)
       || !TargetIsValid(other, detector, target)
       || (kind.GuardedRemediation? && !HasGuardedScript(detector)) || job.generatedAt.Naive? {
      return Err(InvalidInput);
    }
    var h := HeadingFor(kind, detector, job, target);
    var header := Header(h, t.notice);
    var assignments := AssignAll(Expected(kind, detector, job, target));
    var content := Content(t, header, assignments, BodyOf(t, kind, detector));
    SingleEnds(t, header, assignments, kind, detector);
    SingleContent(other, t, kind, detector, job, target);
    var safe := AssertSafe(content);
    r := if safe then Ok(content) else Err(UnsafeContent);
  }

  lemma SingleContent(other: Digits, t: Templates, kind: ScriptKind, detector: DetectorType,
                      job: Job, target: Target)
    requires Inert(t) && Acceptable(other, kind, detector, job, target)
    ensures var h := HeadingFor(kind, detector, job, target);
            var content := Content(t, Text(HeaderLines(h, t.notice)),
                                   Text(ReadonlyLines(Expected(kind, detector, job, target))),
                                   BodyOf(t, kind, detector));
            && (Safe(content) <==> Ascii(job.account.value) && Ascii(target.region.value))
            && (Safe(content) ==> Reads(content, Expected(kind, detector, job, target), []))
  {
    JobIsSafe(other, job);
    TargetIsSafe(other, detector, target);
    var h := HeadingFor(kind, detector, job, target);
    var assignments := Text(ReadonlyLines(Expected(kind, detector, job, target)));
    if Ascii(job.account.value) && Ascii(target.region.value) {
      SingleReads(other, t, kind, detector, job, target);
    } else if !Ascii(job.account.value) {
      var c :| c in job.account.value && c as int >= 128;
      ContentIsUnsafe(t, HeaderLines(h, t.notice), assignments, BodyOf(t, kind, detector),
                      Words(Account) + job.account.value, c);
    } else {
      var c :| c in target.region.value && c as int >= 128;
      ContentIsUnsafe(t, HeaderLines(h, t.notice), assignments, BodyOf(t, kind, detector),
                      Words(InRegion) + target.region.value, c);
    }
  }

  lemma SingleReads(other: Digits, t: Templates, kind: ScriptKind, detector: DetectorType,
                    job: Job, target: Target)
    requires Inert(t) && Acceptable(other, kind, detector, job, target)
    requires SafeText(job.account.value) && SafeText(target.region.value)
    ensures var h := HeadingFor(kind, detector, job, target);
            var pairs := Expected(kind, detector, job, target);
            Reads(Content(t, Text(HeaderLines(h, t.notice)), Text(ReadonlyLines(pairs)),
                          BodyOf(t, kind, detector)), pairs, [])
  {
    hide Reads, Text, Content, HeaderLines, HeadingIsPrintable, SafeText, NameText, Name;
    var h := HeadingFor(kind, detector, job, target);
    var pairs := Expected(kind, detector, job, target);
    HeadingIsFine(other, kind, detector, job, target);
    HeaderIsSilent(h, t.notice);
    ExpectedIsPrintable(other, kind, detector, job, target);
    PairsRead(pairs);
    if kind.Investigation? {
      SilentTogether(t.preamble, t.investigation(detector));
    }
    ContentReads(t, Text(HeaderLines(h, t.notice)), pairs, BodyOf(t, kind, detector), [],
                 Text(ReadonlyLines(pairs)));
  }

  lemma TagPairsArePrintable(other: Digits, job: Job)
    requires CommonIsValid(other, job.account, job.scan, job.tagKey, job.tagValue)
    ensures forall p :: p in TagPairs(job) ==> NameText(p.0) && SafeText(p.1)
  {
    hide Name, NameText, SafeText, StackTag;
    JobIsSafe(other, job);
    NameIsName(IgnoreKey);
    NameIsName(IgnoreValue);
    NameIsName(StackKey);
    StackTagIsSafe();
  }

  lemma ExpectedIsPrintable(other: Digits, kind: ScriptKind, detector: DetectorType, job: Job,
                            target: Target)
    requires Acceptable(other, kind, detector, job, target)
    requires SafeText(job.account.value) && SafeText(target.region.value)
    ensures forall p :: p in Expected(kind, detector, job, target) ==>
              NameText(p.0) && SafeText(p.1)
  {
    hide Name, NameText, SafeText, StackTag;
    TargetIsSafe(other, detector, target);
    TagPairsArePrintable(other, job);
    NameIsName(ExpectedAccount);
    NameIsName(RegionOf);
    NameIsName(Resource(detector));
  }

  // Twelve times the same digit, as an account id.
  function Twelve(digit: char): Identifier {
    Identifier(AccountId, seq(12, i => digit))
  }

  lemma TwelveIsAccepted(other: Digits, digit: char)
    requires other(digit) && digit as int >= 128
    ensures IsValid(other, Twelve(digit), AccountId) && !Ascii(Twelve(digit).value)
  {
    var value := Twelve(digit).value;
    assert value[0] == digit && value[0] in value;
  }

  /** With an account id of twelve digits outside ASCII, input that is fine otherwise passes every
      validation, and only the last check stops the script. */
  method StopForeignDigits(other: Digits, t: Templates, kind: ScriptKind, detector: DetectorType,
                           job: Job, target: Target, digit: char)
    returns (r: Result<string, Failure>)
    requires Inert(t) && Acceptable(other, kind, detector, job, target)
    requires other(digit) && digit as int >= 128
    ensures Acceptable(other, kind, detector, job.(account := Twelve(digit)), target)
    ensures r == Err(UnsafeContent)
  {
    TwelveIsAccepted(other, digit);
    hide Inert, Ascii, Reads, IsValid, TargetIsValid, Twelve, Expected;
    var foreign := job.(account := Twelve(digit));
    assert Acceptable(other, kind, detector, foreign, target);
    r := GenerateScript(other, t, kind, detector, foreign, target);
    assert r.Err? && r.error != InvalidInput;
  }

  // Input that is fine otherwise, with the digits of U+0660 as the only ones outside ASCII.
  const ARABIC_ZERO: char := '\U{0660}'
  const ONLY_ARABIC_ZERO: Digits := (c: char) => c == ARABIC_ZERO

  function SomeTarget(): Target {
    Target(Identifier(Region, "us" + "-" + ("east" + "-" + "1")),
           Identifier(VolumeId, "vol-0a1b2c3d"))
  }

  function SomeJob(account: Identifier, stamp: Stamp): Job {
    Job(account, None, At(stamp), Identifier(TagKey, "a"), Identifier(TagValue, "b"))
  }

  lemma SomeTargetIsValid()
    ensures TargetIsValid(ONLY_ARABIC_ZERO, UnattachedEbsVolume, SomeTarget())
  {
    SomeRegionIsValid();
    SomeVolumeIsValid();
    hide RegionShape, HexAfter;
  }

  lemma SomeVolumeIsValid()
    ensures HexAfter("vol-0a1b2c3d", "vol-")
  {
  }

  lemma SomeRegionIsValid()
    ensures RegionShape(ONLY_ARABIC_ZERO, SomeTarget().region.value)
  {
    hide Split;
    SplitLast("1", '-');
    SplitFirst("east", "1", '-');
    SplitFirst("us", "east" + "-" + "1", '-');
    assert Split(SomeTarget().region.value, '-') == ["us", "east", "1"];
  }

  /** A concrete such input: a volume in a region, and the account id of twelve U+0660. */
  lemma ForeignDigitsAreAcceptable(stamp: Stamp)
    ensures var job := SomeJob(Twelve(ARABIC_ZERO), stamp);
            && Acceptable(ONLY_ARABIC_ZERO, Investigation, UnattachedEbsVolume, job, SomeTarget())
            && !Ascii(job.account.value)
  {
    SomeTargetIsValid();
    TwelveIsAccepted(ONLY_ARABIC_ZERO, ARABIC_ZERO);
    SomeTagsAreValid();
    hide TargetIsValid, Ascii, SomeTarget, Twelve, IsValid;
  }

  lemma SomeTagsAreValid()
    ensures IsValid(ONLY_ARABIC_ZERO, Identifier(TagKey, "a"), TagKey)
    ensures IsValid(ONLY_ARABIC_ZERO, Identifier(TagValue, "b"), TagValue)
  {
    assert TagText("a", 128) && TagText("b", 256);
    hide TagText;
  }

  // ---- a script for many findings ---------------------------------------------------------

  predicate BulkAcceptable(other: Digits, job: Job, targets: seq<(DetectorType, Target)>) {
    && targets != []
    && CommonIsValid(other, job.account, job.scan, job.tagKey, job.tagValue)
    && (forall i :: 0 <= i < |targets| ==> BulkTarget(other, targets[i]))
    && job.generatedAt.At?
  }

  predicate BulkTarget(other: Digits, t: (DetectorType, Target)) {
    HasGuardedScript(t.0) && TargetIsValid(other, t.0, t.1)
  }

  predicate AllAscii(job: Job, targets: seq<(DetectorType, Target)>) {
    && Ascii(job.account.value)
    && forall i :: 0 <= i < |targets| ==> Ascii(targets[i].1.region.value)
  }

  function CallFor(t: (DetectorType, Target)): Call {
    if t.0.UnattachedEbsVolume? then ProcessVolume(t.1.region.value, t.1.resource.value)
    else ProcessAddress(t.1.region.value, t.1.resource.value)
  }

  // The calls that a bulk script is to make: one for each target, in order.
  function CallsFor(targets: seq<(DetectorType, Target)>): seq<Call> {
    seq(|targets|, i requires 0 <= i < |targets| => CallFor(targets[i]))
  }

  function LeadPairs(job: Job, targets: seq<(DetectorType, Target)>): seq<(string, string)>
    requires targets != []
  {
    [(Name(ExpectedAccount), job.account.value), (Name(RegionOf), targets[0].1.region.value)]
  }

  function BulkHeading(job: Job, targets: seq<(DetectorType, Target)>): Heading
    requires job.generatedAt.At?
  {
    Heading(BulkTitle(), GuardedRemediation, BulkDetector(), job.generatedAt.stamp, job.scan,
            job.account, BulkRegion(), None, targets)
  }

  function NoteStart(): string { "# REGION is used only for the STS " }
  function NoteMiddle(): string { "identity check; each resource " }
  function NoteEnd(): string { "names its own region." }

  function RegionNote(): string {
    NoteStart() + NoteMiddle() + NoteEnd()
  }

  lemma RegionNoteIsSilent()
    ensures Silent(RegionNote() + "\n")
  {
    RegionNoteIsComment();
    hide RegionNote, Reads;
    CommentIsSilent(RegionNote());
    SilentLine(RegionNote());
  }

  lemma NotePartsArePrintable()
    ensures PrintableText(NoteMiddle()) && PrintableText(NoteEnd())
  {
  }

  lemma NoteStartIsComment()
    ensures PrintableComment(NoteStart())
  {
  }

  lemma RegionNoteIsComment()
    ensures PrintableComment(RegionNote())
  {
    hide NoteStart, NoteMiddle, NoteEnd, Printable;
    NotePartsArePrintable();
    NoteStartIsComment();
  }

  function BulkAssignments(job: Job, targets: seq<(DetectorType, Target)>): string
    requires targets != []
  {
    Text(ReadonlyLines(LeadPairs(job, targets))) + (RegionNote() + "\n")
    + Text(ReadonlyLines(TagPairs(job)))
  }

  function BulkRest(t: Templates, targets: seq<(DetectorType, Target)>): string {
    t.bulkFunctions + t.bulkOpen + Text(CallLines(CallsFor(targets))) + t.bulkClose
  }

  method PrintCalls(targets: seq<(DetectorType, Target)>) returns (text: string)
    ensures text == Text(CallLines(CallsFor(targets)))
  {
    hide Text, CallLine, CallLines;
    text := "";
    NoText();
    assert CallsFor(targets[..0]) == [];
    for i := 0 to |targets|
      invariant text == Text(CallLines(CallsFor(targets[..i])))
    {
      var call := CallFor(targets[i]);
      OneMoreCall(CallsFor(targets[..i]), call);
      assert CallsFor(targets[..i + 1]) == CallsFor(targets[..i]) + [call];
      text := text + (CallLine(call) + "\n");
    }
    assert targets[..|targets|] == targets;
  }

  lemma OneMoreCall(calls: seq<Call>, call: Call)
    ensures Text(CallLines(calls + [call])) == Text(CallLines(calls)) + (CallLine(call) + "\n")
  {
    hide Text, CallLine;
    OneMoreLine(CallLines(calls), CallLine(call));
    assert CallLines(calls + [call]) == CallLines(calls) + [CallLine(call)];
  }

  method TargetsAreValid(other: Digits, targets: seq<(DetectorType, Target)>) returns (ok: bool)
    ensures ok <==> forall i :: 0 <= i < |targets| ==> BulkTarget(other, targets[i])
  {
    for i := 0 to |targets|
      invariant forall k :: 0 <= k < i ==> BulkTarget(other, targets[k])
    {
      if !BulkTarget(other, targets[i]) {
        return false;
      }
    }
    ok := true;
  }

  /** What a bulk script assigns, and the call it makes for each target. */
  lemma BulkExactly(job: Job, targets: seq<(DetectorType, Target)>)
    requires targets != []
    ensures LeadPairs(job, targets) == [("EXPECTED_ACCOUNT_ID", job.account.value),
                                        ("REGION", targets[0].1.region.value)]
    ensures |CallsFor(targets)| == |targets|
    ensures forall i :: 0 <= i < |targets| ==>
              var (detector, target) := targets[i];
              && CallsFor(targets)[i].region == target.region.value
              && CallsFor(targets)[i].id == target.resource.value
              && (CallsFor(targets)[i].ProcessVolume? <==> detector.UnattachedEbsVolume?)
  {
  }

  /** A script for many findings: refused, and stopped by the last check, exactly as a single one is,
      for any of its targets; what is handed out reads back as exactly the names and values that went
      in and as one call for each target, with its kind, region and id, in order, and runs the bulk
      text with the calls between its opening and its close. */
  method GenerateBulkScript(other: Digits, t: Templates, job: Job,
                            targets: seq<(DetectorType, Target)>)
    returns (r: Result<string, Failure>)
    requires Inert(t)
    ensures r == Err(InvalidInput) <==> !BulkAcceptable(other, job, targets)
    ensures r.Ok? <==> BulkAcceptable(other, job, targets) && AllAscii(job, targets)
    ensures r.Ok? ==>
              Reads(r.value, LeadPairs(job, targets) + TagPairs(job), CallsFor(targets))
    ensures r.Ok? ==>
              && Preface(Text(HeaderLines(BulkHeading(job, targets), t.notice))) <= r.value
              && EndsWith(r.value, t.common + t.bulkFunctions + t.bulkOpen
                                   + Text(CallLines(CallsFor(targets))) + t.bulkClose)
  {
    hide Preface, EndsWith;
    hide Reads, Text, Safe, Content, HeaderLines, BulkTarget, RegionNote, Inert, ReadonlyLine, Name;
    hide AllAscii, StackTag, CallLine, BulkHeading;
    if targets == [] {
      return Err(InvalidInput);
    }
    if !CommonIsValid(other, job.account, job.scan, job.tagKey, job.tagValue) {
      return Err(InvalidInput);
    }
    var targetsOk := TargetsAreValid(other, targets);
    if !targetsOk || job.generatedAt.Naive? {
      return Err(InvalidInput);
    }
    var header := Header(BulkHeading(job, targets), t.notice);
    var assignments := AssignAll(LeadPairs(job, targets));
    assignments := assignments + (RegionNote() + "\n");
    var tags := AssignAll(TagPairs(job));
    assignments := assignments + tags;
    var calls := PrintCalls(targets);
    var rest := t.bulkFunctions + t.bulkOpen + calls + t.bulkClose;
    var content := Content(t, header, assignments, rest);
    ContentEnds(t, header, assignments, rest,
                t.common + t.bulkFunctions + t.bulkOpen + calls + t.bulkClose);
    BulkContent(other, t, job, targets);
    var safe := AssertSafe(content);
    r := if safe then Ok(content) else Err(UnsafeContent);
  }

  lemma TargetIsListed(h: Heading, notice: seq<string>, i: nat)
    requires h.resource.None? && i < |h.targets|
    ensures TargetLine(h.targets[i].1) in HeaderLines(h, notice)
  {
    hide TargetLine, HeadLines;
    assert TargetLines(h.targets)[i] == TargetLine(h.targets[i].1);
    assert TargetLine(h.targets[i].1) in TargetLines(h.targets);
  }

  lemma BulkContent(other: Digits, t: Templates, job: Job, targets: seq<(DetectorType, Target)>)
    requires Inert(t) && BulkAcceptable(other, job, targets)
    ensures var content := Content(t, Text(HeaderLines(BulkHeading(job, targets), t.notice)),
                                   BulkAssignments(job, targets), BulkRest(t, targets));
            && (Safe(content) <==> AllAscii(job, targets))
            && (Safe(content) ==>
                  Reads(content, LeadPairs(job, targets) + TagPairs(job), CallsFor(targets)))
  {
    assert targets != [] && job.generatedAt.At?;
    var h := BulkHeading(job, targets);
    var content := Content(t, Text(HeaderLines(h, t.notice)), BulkAssignments(job, targets),
                           BulkRest(t, targets));
    hide Reads, Safe, Text, Content, BulkRest, BulkAssignments, Inert, BulkAcceptable, AllAscii;
    hide HeaderLines, BulkHeading, LeadPairs, TagPairs, CallsFor;
    if AllAscii(job, targets) {
      BulkReads(other, t, job, targets);
      ReadsIsSafe(content, LeadPairs(job, targets) + TagPairs(job), CallsFor(targets));
    } else {
      BulkIsUnsafe(t, job, targets);
    }
  }

  lemma BulkIsUnsafe(t: Templates, job: Job, targets: seq<(DetectorType, Target)>)
    requires targets != [] && job.generatedAt.At? && !AllAscii(job, targets)
    ensures !Safe(Content(t, Text(HeaderLines(BulkHeading(job, targets), t.notice)),
                          BulkAssignments(job, targets), BulkRest(t, targets)))
  {
    hide Safe, Text, Content, BulkRest, BulkAssignments, Words, TargetLine;
    var h := BulkHeading(job, targets);
    if !Ascii(job.account.value) {
      var c :| c in job.account.value && c as int >= 128;
      ContentIsUnsafe(t, HeaderLines(h, t.notice), BulkAssignments(job, targets),
                      BulkRest(t, targets), Words(Account) + job.account.value, c);
    } else {
      var i :| 0 <= i < |targets| && !Ascii(targets[i].1.region.value);
      var c :| c in targets[i].1.region.value && c as int >= 128;
      TargetIsListed(h, t.notice, i);
      RegionIsPrinted(targets[i].1, c);
      ContentIsUnsafe(t, HeaderLines(h, t.notice), BulkAssignments(job, targets),
                      BulkRest(t, targets), TargetLine(targets[i].1), c);
    }
  }

  lemma RegionIsPrinted(target: Target, c: char)
    requires c in target.region.value
    ensures c in TargetLine(target)
  {
    hide Words;
  }

  lemma ReadsIsSafe(s: string, pairs: seq<(string, string)>, calls: seq<Call>)
    requires Reads(s, pairs, calls)
    ensures Safe(s)
  {
  }

  lemma BulkHeadingIsFine(other: Digits, job: Job, targets: seq<(DetectorType, Target)>)
    requires BulkAcceptable(other, job, targets) && AllAscii(job, targets)
    ensures HeadingIsPrintable(BulkHeading(job, targets))
  {
    JobIsSafe(other, job);
    hide SafeText, PrintableText, CommonIsValid, TargetIsValid, Ascii;
    BulkTextIsPrintable();
    SafeTextIsPrintable(job.account.value);
    StampIsPrintable(job.generatedAt.stamp);
    forall t | t in targets
      ensures PrintableText(t.1.region.value) && PrintableText(t.1.resource.value)
    {
      var i :| 0 <= i < |targets| && targets[i] == t;
      assert BulkTarget(other, targets[i]);
      TargetIsSafe(other, t.0, t.1);
      SafeTextIsPrintable(t.1.region.value);
      SafeTextIsPrintable(t.1.resource.value);
    }
  }

  lemma BulkCallsAreSafe(other: Digits, job: Job, targets: seq<(DetectorType, Target)>)
    requires BulkAcceptable(other, job, targets) && AllAscii(job, targets)
    ensures forall c :: c in CallsFor(targets) ==> SafeText(c.region) && SafeText(c.id)
  {
    hide SafeText, CommonIsValid, TargetIsValid, Ascii;
    forall c | c in CallsFor(targets)
      ensures SafeText(c.region) && SafeText(c.id)
    {
      var i :| 0 <= i < |targets| && c == CallFor(targets[i]);
      assert BulkTarget(other, targets[i]);
      TargetIsSafe(other, targets[i].0, targets[i].1);
    }
  }

  lemma AroundANote(a: string, note: string, b: string, p: seq<(string, string)>,
                    q: seq<(string, string)>)
    requires Reads(a, p, []) && Silent(note) && Reads(b, q, [])
    ensures Reads(a + note + b, p + q, [])
  {
    hide Reads;
    ReadsTogether(a, note, p, [], [], []);
    ReadsTogether(a + note, b, p + [], q, [] + [], []);
    var none: seq<Call> := [];
    assert p + [] == p && none + none == none;
  }

  lemma LeadPairsArePrintable(other: Digits, job: Job, targets: seq<(DetectorType, Target)>)
    requires BulkAcceptable(other, job, targets) && AllAscii(job, targets)
    ensures forall p :: p in LeadPairs(job, targets) ==> NameText(p.0) && SafeText(p.1)
  {
    hide Name, NameText, SafeText, Ascii, CommonIsValid, TargetIsValid;
    JobIsSafe(other, job);
    assert BulkTarget(other, targets[0]) && Ascii(targets[0].1.region.value);
    TargetIsSafe(other, targets[0].0, targets[0].1);
    NameIsName(ExpectedAccount);
    NameIsName(RegionOf);
  }

  lemma BulkAssignmentsRead(other: Digits, job: Job, targets: seq<(DetectorType, Target)>)
    requires BulkAcceptable(other, job, targets) && AllAscii(job, targets)
    ensures Reads(BulkAssignments(job, targets), LeadPairs(job, targets) + TagPairs(job), [])
  {
    TagPairsArePrintable(other, job);
    LeadPairsArePrintable(other, job, targets);
    hide Reads, Text, NameText, SafeText, AllAscii, TagPairs, LeadPairs, BulkAcceptable;
    hide RegionNote, ReadonlyLines;
    PairsRead(LeadPairs(job, targets));
    PairsRead(TagPairs(job));
    RegionNoteIsSilent();
    AroundANote(Text(ReadonlyLines(LeadPairs(job, targets))), RegionNote() + "\n",
                Text(ReadonlyLines(TagPairs(job))), LeadPairs(job, targets), TagPairs(job));
  }

  lemma BulkRestReads(other: Digits, t: Templates, job: Job, targets: seq<(DetectorType, Target)>)
    requires Inert(t) && BulkAcceptable(other, job, targets) && AllAscii(job, targets)
    ensures Reads(BulkRest(t, targets), [], CallsFor(targets))
  {
    BulkCallsAreSafe(other, job, targets);
    hide Reads, Text, SafeText, CallsFor, BulkAcceptable, AllAscii, CallLines;
    CallsRead(CallsFor(targets));
    SilentTogether(t.bulkFunctions, t.bulkOpen);
    Surrounded(t.bulkFunctions + t.bulkOpen, Text(CallLines(CallsFor(targets))), t.bulkClose, [],
               CallsFor(targets));
  }

  lemma BulkReads(other: Digits, t: Templates, job: Job, targets: seq<(DetectorType, Target)>)
    requires Inert(t) && BulkAcceptable(other, job, targets) && AllAscii(job, targets)
    ensures Reads(Content(t, Text(HeaderLines(BulkHeading(job, targets), t.notice)),
                          BulkAssignments(job, targets), BulkRest(t, targets)),
                  LeadPairs(job, targets) + TagPairs(job), CallsFor(targets))
  {
    var h := BulkHeading(job, targets);
    BulkHeadingIsFine(other, job, targets);
    BulkAssignmentsRead(other, job, targets);
    BulkRestReads(other, t, job, targets);
    hide Reads, Text, Content, HeaderLines, HeadingIsPrintable, BulkAssignments, BulkRest, CallsFor;
    hide BulkHeading, LeadPairs, TagPairs, AllAscii;
    HeaderIsSilent(h, t.notice);
    ContentReads(t, Text(HeaderLines(h, t.notice)), LeadPairs(job, targets) + TagPairs(job),
                 BulkRest(t, targets), CallsFor(targets), BulkAssignments(job, targets));
  }
}
