/** Script text: how it splits into lines, how the lines that matter are printed, and how they are
    read back. */
module Lines {
  import opened Domain

  // ---- lines ------------------------------------------------------------------------------

  // The characters at which Python's splitlines ends a line.
  predicate IsBreak(c: char) {
    || c == '\n' || c == '\r' || c == '\U{0B}' || c == '\U{0C}' || c == '\U{1C}' || c == '\U{1D}'
    || c == '\U{1E}' || c == '\U{85}' || c == '\U{2028}' || c == '\U{2029}'
  }

  function FirstBreak(s: string): (i: nat)
    ensures i <= |s|
    ensures forall k :: 0 <= k < i ==> !IsBreak(s[k])
    ensures i < |s| ==> IsBreak(s[i])
  {
    if s == "" || IsBreak(s[0]) then 0 else FirstBreak(s[1..]) + 1
  }

  // A carriage return takes a line feed after it along.
  function AfterBreak(s: string, i: nat): (k: nat)
    requires i < |s|
    ensures i < k <= |s|
  {
    if s[i] == '\r' && i + 1 < |s| && s[i + 1] == '\n' then i + 2 else i + 1
  }

  function SplitLines(s: string): seq<string>
    decreases |s|
  {
    if s == "" then []
    else
      var i := FirstBreak(s);
      if i == |s| then [s] else [s[..i]] + SplitLines(s[AfterBreak(s, i)..])
  }

  // Text that is empty or ends a line.
  predicate Whole(s: string) {
    s == "" || s[|s| - 1] == '\n'
  }

  lemma BreakIsFirst(s: string, i: nat)
    requires i < |s| && IsBreak(s[i]) && forall k :: 0 <= k < i ==> !IsBreak(s[k])
    ensures FirstBreak(s) == i
  {
  }

  lemma SameBreak(a: string, b: string)
    requires Whole(a) && a != "" && FirstBreak(a) < |a|
    ensures FirstBreak(a + b) == FirstBreak(a)
    ensures AfterBreak(a + b, FirstBreak(a)) == AfterBreak(a, FirstBreak(a))
  {
    var i := FirstBreak(a);
    assert forall k :: 0 <= k < |a| ==> (a + b)[k] == a[k];
    BreakIsFirst(a + b, i);
  }

  /** Whole lines split apart from whatever follows them. */
  lemma {:induction false} SplitWhole(a: string, b: string)
    requires Whole(a)
    ensures SplitLines(a + b) == SplitLines(a) + SplitLines(b)
    decreases |a|
  {
    if a == "" {
      assert a + b == b;
    } else {
      assert IsBreak(a[|a| - 1]);
      var i := FirstBreak(a);
      var next := AfterBreak(a, i);
      SameBreak(a, b);
      hide IsBreak, FirstBreak, AfterBreak;
      assert (a + b)[next..] == a[next..] + b;
      assert (a + b)[..i] == a[..i];
      SplitWhole(a[next..], b);
    }
  }

  function Text(lines: seq<string>): string {
    if |lines| == 0 then "" else lines[0] + "\n" + Text(lines[1..])
  }

  // Lines joined by line feeds, the last one without.
  function Join(lines: seq<string>): string {
    if |lines| == 0 then ""
    else if |lines| == 1 then lines[0]
    else lines[0] + "\n" + Join(lines[1..])
  }

  lemma {:induction false} JoinIsText(lines: seq<string>)
    ensures Join(lines + [""]) == Text(lines)
  {
    if |lines| > 0 {
      assert (lines + [""])[1..] == lines[1..] + [""];
      JoinIsText(lines[1..]);
    }
  }

  lemma {:induction false} TextIsWhole(lines: seq<string>)
    ensures Whole(Text(lines))
  {
    if |lines| > 0 {
      TextIsWhole(lines[1..]);
    }
  }

  lemma {:induction false} TextAppend(a: seq<string>, b: seq<string>)
    ensures Text(a + b) == Text(a) + Text(b)
  {
    if |a| == 0 {
      assert a + b == b;
    } else {
      assert (a + b)[1..] == a[1..] + b;
      TextAppend(a[1..], b);
      assert Text(a + b) == a[0] + "\n" + (Text(a[1..]) + Text(b));
    }
  }

  predicate Unbroken(line: string) {
    forall c :: c in line ==> !IsBreak(c)
  }

  /** Unbroken lines, each ended by a line feed, split into just these lines. */
  lemma {:induction false} SplitText(lines: seq<string>)
    requires forall l :: l in lines ==> Unbroken(l)
    ensures SplitLines(Text(lines)) == lines
  {
    if |lines| > 0 {
      SplitText(lines[1..]);
      var first := lines[0] + "\n";
      assert Unbroken(lines[0]);
      assert forall k :: 0 <= k < |lines[0]| ==> first[k] == lines[0][k] && first[k] in lines[0];
      BreakIsFirst(first, |lines[0]|);
      assert first[|lines[0]| + 1..] == "" && first[..|lines[0]|] == lines[0];
      assert SplitLines(first) == [lines[0]];
      SplitWhole(first, Text(lines[1..]));
      assert lines == [lines[0]] + lines[1..];
    }
  }

  // ---- the lines that matter --------------------------------------------------------------

  // The characters that values may consist of.
  predicate SafeChar(c: char) {
    || 'A' <= c <= 'Z' || 'a' <= c <= 'z' || '0' <= c <= '9'
    || c == '_' || c == '.' || c == ':' || c == '/' || c == '+' || c == '@' || c == '-'
  }

  predicate SafeText(s: string) {
    forall c :: c in s ==> SafeChar(c)
  }

  predicate NameText(s: string) {
    s != "" && forall c :: c in s ==> 'A' <= c <= 'Z' || c == '_'
  }

  // What the lines that matter begin with. Fixed texts are functions, here and where scripts are put
  // together, so that proofs can hide their characters.
  function Readonly(): string { "readonly " }
  function VolumeCommand(): string { "  process_volume \"" }
  function AddressCommand(): string { "  process_address \"" }

  lemma Beginnings()
    ensures |Readonly()| == 9 && Readonly()[0] == 'r'
    ensures |VolumeCommand()| == 18 && VolumeCommand()[0] == ' ' && VolumeCommand()[10] == 'v'
    ensures |AddressCommand()| == 19 && AddressCommand()[0] == ' ' && AddressCommand()[10] == 'a'
    ensures forall c :: c in Readonly() + VolumeCommand() + AddressCommand() ==> Printable(c)
  {
  }

  function Quoted(name: string, value: string): string {
    name + "=\"" + value + "\""
  }

  function Arguments(region: string, id: string): string {
    region + "\" \"" + id + "\""
  }

  function ReadonlyLine(name: string, value: string): string {
    Readonly() + Quoted(name, value)
  }

  datatype Call = ProcessVolume(region: string, id: string) | ProcessAddress(region: string, id: string)

  function Command(call: Call): string {
    if call.ProcessVolume? then VolumeCommand() else AddressCommand()
  }

  function CallLine(call: Call): string {
    Command(call) + Arguments(call.region, call.id)
  }

  /** The two printed forms, in the shell's own words. */
  lemma PrintedForms(name: string, value: string, region: string, id: string)
    ensures ReadonlyLine(name, value) == "readonly " + name + "=\"" + value + "\""
    ensures CallLine(ProcessVolume(region, id))
         == "  process_volume \"" + region + "\" \"" + id + "\""
    ensures CallLine(ProcessAddress(region, id))
         == "  process_address \"" + region + "\" \"" + id + "\""
  {
    assert ReadonlyLine(name, value) == "readonly " + (name + "=\"" + value + "\"");
  }

  function Find(s: string, c: char): (i: nat)
    ensures i <= |s|
    ensures forall k :: 0 <= k < i ==> s[k] != c
    ensures i < |s| ==> s[i] == c
  {
    if s == "" || s[0] == c then 0 else Find(s[1..], c) + 1
  }

  lemma FindIs(s: string, c: char, i: nat)
    requires i < |s| && s[i] == c && forall k :: 0 <= k < i ==> s[k] != c
    ensures Find(s, c) == i
  {
  }

  // Reads a name and a quoted value.
  function ParseQuoted(rest: string): Option<(string, string)> {
    var i, n := Find(rest, '='), |rest|;
    if i + 2 >= n || rest[i + 1] != '"' || rest[n - 1] != '"' then None
    else if NameText(rest[..i]) && SafeText(rest[i + 2..n - 1]) then
      Some((rest[..i], rest[i + 2..n - 1]))
    else None
  }

  // Reads a well-formed assignment.
  function ParseReadonly(line: string): Option<(string, string)> {
    if Readonly() <= line then ParseQuoted(line[|Readonly()|..]) else None
  }

  // Reads the two quoted arguments of a call.
  function ParseArguments(rest: string): Option<(string, string)> {
    var i, n := Find(rest, '"'), |rest|;
    if i + 3 >= n || rest[i + 1] != ' ' || rest[i + 2] != '"' || rest[n - 1] != '"' then None
    else if SafeText(rest[..i]) && SafeText(rest[i + 3..n - 1]) then
      Some((rest[..i], rest[i + 3..n - 1]))
    else None
  }

  function ParseCall(line: string): Option<Call> {
    if VolumeCommand() <= line then
      match ParseArguments(line[|VolumeCommand()|..])
      case Some((region, id)) => Some(ProcessVolume(region, id))
      case None => None
    else if AddressCommand() <= line then
      match ParseArguments(line[|AddressCommand()|..])
      case Some((region, id)) => Some(ProcessAddress(region, id))
      case None => None
    else None
  }

  lemma QuotedReads(name: string, value: string)
    requires NameText(name) && SafeText(value)
    ensures ParseQuoted(Quoted(name, value)) == Some((name, value))
  {
    var rest := Quoted(name, value);
    assert forall k :: 0 <= k < |name| ==> rest[k] == name[k] && rest[k] in name;
    FindIs(rest, '=', |name|);
    assert rest[..|name|] == name && rest[|name| + 2..|rest| - 1] == value;
  }

  lemma QuotedOnly(rest: string)
    requires ParseQuoted(rest).Some?
    ensures var (name, value) := ParseQuoted(rest).value;
            NameText(name) && SafeText(value) && rest == Quoted(name, value)
  {
    var i := Find(rest, '=');
    assert rest == rest[..i] + ['=', '"'] + rest[i + 2..|rest| - 1] + ['"'];
  }

  lemma Begin(start: string, rest: string)
    ensures start <= start + rest && (start + rest)[|start|..] == rest
  {
  }

  /** A line reads as an assignment exactly when it is the printed form of a name and a safe value,
      and then it reads as those. */
  lemma ReadonlyIsInverse(line: string, name: string, value: string)
    ensures ParseReadonly(line) == Some((name, value))
       <==> NameText(name) && SafeText(value) && line == ReadonlyLine(name, value)
  {
    hide Readonly, Quoted, ParseQuoted, NameText, SafeText;
    if NameText(name) && SafeText(value) {
      Begin(Readonly(), Quoted(name, value));
      QuotedReads(name, value);
    }
    if ParseReadonly(line).Some? {
      QuotedOnly(line[|Readonly()|..]);
      assert line == Readonly() + line[|Readonly()|..];
    }
  }

  lemma ArgumentsRead(region: string, id: string)
    requires SafeText(region) && SafeText(id)
    ensures ParseArguments(Arguments(region, id)) == Some((region, id))
  {
    var rest := Arguments(region, id);
    assert forall k :: 0 <= k < |region| ==> rest[k] == region[k] && rest[k] in region;
    FindIs(rest, '"', |region|);
    assert rest[..|region|] == region && rest[|region| + 3..|rest| - 1] == id;
  }

  /** A printed call reads back as the call. */
  lemma CallReadsBack(call: Call)
    requires SafeText(call.region) && SafeText(call.id)
    ensures ParseCall(CallLine(call)) == Some(call)
  {
    hide VolumeCommand, AddressCommand, ParseArguments, Arguments, SafeText;
    Begin(Command(call), Arguments(call.region, call.id));
    ArgumentsRead(call.region, call.id);
    Beginnings();
    if call.ProcessAddress? {
      assert CallLine(call)[10] == AddressCommand()[10];
    }
  }

  function AssignmentsIn(lines: seq<string>): seq<(string, string)> {
    if |lines| == 0 then []
    else
      var first := ParseReadonly(lines[0]);
      (if first.Some? then [first.value] else []) + AssignmentsIn(lines[1..])
  }

  function CallsIn(lines: seq<string>): seq<Call> {
    if |lines| == 0 then []
    else
      var first := ParseCall(lines[0]);
      (if first.Some? then [first.value] else []) + CallsIn(lines[1..])
  }

  lemma {:induction false} AssignmentsAppend(a: seq<string>, b: seq<string>)
    ensures AssignmentsIn(a + b) == AssignmentsIn(a) + AssignmentsIn(b)
  {
    hide ParseReadonly;
    if |a| == 0 {
      assert a + b == b;
    } else {
      AssignmentsAppend(a[1..], b);
      assert (a + b)[1..] == a[1..] + b && (a + b)[0] == a[0];
    }
  }

  lemma {:induction false} CallsAppend(a: seq<string>, b: seq<string>)
    ensures CallsIn(a + b) == CallsIn(a) + CallsIn(b)
  {
    hide ParseCall;
    if |a| == 0 {
      assert a + b == b;
    } else {
      CallsAppend(a[1..], b);
      assert (a + b)[1..] == a[1..] + b && (a + b)[0] == a[0];
    }
  }

  // ---- safe text --------------------------------------------------------------------------

  predicate Printable(c: char) {
    32 <= c as int <= 126
  }

  predicate WellFormed(line: string) {
    Readonly() <= line ==> ParseReadonly(line).Some?
  }

  // Every readonly line is well formed, and nothing but line feeds and printable ASCII occurs.
  predicate Safe(content: string) {
    && (forall line :: line in SplitLines(content) ==> WellFormed(line))
    && (forall c :: c in content ==> c == '\n' || Printable(c))
  }

  /** The last check before a script is handed out. */
  method AssertSafe(content: string) returns (ok: bool)
    ensures ok == Safe(content)
  {
    var lines := SplitLines(content);
    for i := 0 to |lines|
      invariant forall k :: 0 <= k < i ==> WellFormed(lines[k])
    {
      if Readonly() <= lines[i] && ParseReadonly(lines[i]).None? {
        assert lines[i] in lines;
        return false;
      }
    }
    for i := 0 to |content|
      invariant forall k :: 0 <= k < i ==> content[k] == '\n' || Printable(content[k])
    {
      if content[i] != '\n' && !Printable(content[i]) {
        assert content[i] in content;
        return false;
      }
    }
    ok := true;
  }

  // Whole lines of safe text that read as these assignments and these calls.
  ghost predicate Reads(s: string, assignments: seq<(string, string)>, calls: seq<Call>) {
    && Whole(s) && Safe(s)
    && AssignmentsIn(SplitLines(s)) == assignments && CallsIn(SplitLines(s)) == calls
  }

  /** What two pieces of text read as, they read as together. */
  lemma ReadsTogether(a: string, b: string, p: seq<(string, string)>, q: seq<(string, string)>,
                      c: seq<Call>, d: seq<Call>)
    requires Reads(a, p, c) && Reads(b, q, d)
    ensures Reads(a + b, p + q, c + d)
  {
    hide SplitLines, WellFormed, Printable, AssignmentsIn, CallsIn;
    SplitWhole(a, b);
    AssignmentsAppend(SplitLines(a), SplitLines(b));
    CallsAppend(SplitLines(a), SplitLines(b));
    assert b != "" ==> (a + b)[|a + b| - 1] == b[|b| - 1];
    assert b == "" ==> a + b == a;
  }

  predicate PlainLine(line: string) {
    WellFormed(line) && forall c :: c in line ==> Printable(c)
  }

  /** Well-formed printable lines, written one after the other, read as what they hold. */
  lemma {:induction false} LinesRead(lines: seq<string>)
    requires forall l :: l in lines ==> PlainLine(l)
    ensures Reads(Text(lines), AssignmentsIn(lines), CallsIn(lines))
  {
    SplitText(lines);
    TextIsWhole(lines);
    CharactersOf(lines);
  }

  lemma {:induction false} CharactersOf(lines: seq<string>)
    ensures forall c :: c in Text(lines) ==> c == '\n' || exists l :: l in lines && c in l
    ensures forall l, c :: l in lines && c in l ==> c in Text(lines)
  {
    if |lines| > 0 {
      CharactersOf(lines[1..]);
      assert lines == [lines[0]] + lines[1..];
    }
  }

  predicate Comment(line: string) {
    line != "" && line[0] == '#'
  }

  lemma CommentIsSilent(line: string)
    requires Comment(line)
    ensures ParseReadonly(line) == None && ParseCall(line) == None && WellFormed(line)
  {
    hide Readonly, VolumeCommand, AddressCommand, ParseQuoted, ParseArguments;
    Beginnings();
    assert !(Readonly() <= line) && !(VolumeCommand() <= line) && !(AddressCommand() <= line);
  }

  lemma {:induction false} CommentsAreSilent(lines: seq<string>)
    requires forall l :: l in lines ==> Comment(l)
    ensures AssignmentsIn(lines) == [] && CallsIn(lines) == []
    ensures forall l :: l in lines ==> WellFormed(l)
  {
    if |lines| > 0 {
      hide ParseReadonly, ParseCall, WellFormed, Comment;
      CommentIsSilent(lines[0]);
      CommentsAreSilent(lines[1..]);
      assert lines == [lines[0]] + lines[1..];
    }
  }

  // The printed assignments and calls read back, in order.
  function ReadonlyLines(pairs: seq<(string, string)>): seq<string> {
    seq(|pairs|, i requires 0 <= i < |pairs| => ReadonlyLine(pairs[i].0, pairs[i].1))
  }

  function CallLines(calls: seq<Call>): seq<string> {
    seq(|calls|, i requires 0 <= i < |calls| => CallLine(calls[i]))
  }

  lemma SafeIsPrintable(s: string)
    requires SafeText(s) || NameText(s)
    ensures forall c :: c in s ==> Printable(c)
  {
  }

  lemma ReadonlyIsPlain(name: string, value: string)
    requires NameText(name) && SafeText(value)
    ensures PlainLine(ReadonlyLine(name, value)) && ParseCall(ReadonlyLine(name, value)) == None
    ensures ParseReadonly(ReadonlyLine(name, value)) == Some((name, value))
  {
    var line := ReadonlyLine(name, value);
    ReadonlyIsInverse(line, name, value);
    SafeIsPrintable(name);
    SafeIsPrintable(value);
    hide Readonly, VolumeCommand, AddressCommand, ParseReadonly, NameText, SafeText;
    Beginnings();
    assert line[0] == 'r';
    assert forall c :: c in line ==> c in Readonly() || c in name || c in value || c in "=\"";
  }

  lemma {:induction false} AssignmentsReadBack(pairs: seq<(string, string)>)
    requires forall p :: p in pairs ==> NameText(p.0) && SafeText(p.1)
    ensures AssignmentsIn(ReadonlyLines(pairs)) == pairs && CallsIn(ReadonlyLines(pairs)) == []
    ensures forall l :: l in ReadonlyLines(pairs) ==> PlainLine(l)
  {
    hide ReadonlyLine, ParseReadonly, ParseCall, PlainLine;
    if |pairs| > 0 {
      ReadonlyIsPlain(pairs[0].0, pairs[0].1);
      AssignmentsReadBack(pairs[1..]);
      assert ReadonlyLines(pairs)[1..] == ReadonlyLines(pairs[1..]);
      assert ReadonlyLines(pairs) == [ReadonlyLines(pairs)[0]] + ReadonlyLines(pairs[1..]);
    }
  }

  lemma CallIsPlain(call: Call)
    requires SafeText(call.region) && SafeText(call.id)
    ensures PlainLine(CallLine(call)) && ParseReadonly(CallLine(call)) == None
  {
    var line := CallLine(call);
    SafeIsPrintable(call.region);
    SafeIsPrintable(call.id);
    hide Readonly, VolumeCommand, AddressCommand, ParseQuoted, NameText, SafeText;
    Beginnings();
    assert line[0] == ' ';
    assert forall c :: c in line ==>
             c in Command(call) || c in call.region || c in call.id || c in "\" \"";
  }

  lemma {:induction false} CallsReadBack(calls: seq<Call>)
    requires forall c :: c in calls ==> SafeText(c.region) && SafeText(c.id)
    ensures CallsIn(CallLines(calls)) == calls && AssignmentsIn(CallLines(calls)) == []
    ensures forall l :: l in CallLines(calls) ==> PlainLine(l)
  {
    hide CallLine, ParseReadonly, ParseCall, PlainLine;
    if |calls| > 0 {
      CallIsPlain(calls[0]);
      CallReadsBack(calls[0]);
      CallsReadBack(calls[1..]);
      assert CallLines(calls)[1..] == CallLines(calls[1..]);
      assert CallLines(calls) == [CallLines(calls)[0]] + CallLines(calls[1..]);
    }
  }
}
