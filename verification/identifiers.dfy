/** The identifiers a script may contain: which texts each kind accepts. */
module Identifiers {
  import opened Lines

  datatype Kind =
    | AccountId
    | Region
    | VolumeId
    | InstanceId
    | SnapshotId
    | AllocationId
    | ScanUuid
    | TagKey
    | TagValue

  datatype Identifier = Identifier(kind: Kind, value: string)

  // Which characters outside ASCII count as decimal digits.
  type Digits = char -> bool

  predicate Digit(c: char) {
    '0' <= c <= '9'
  }

  // The patterns' digit: it takes the decimal digits of every script.
  predicate AnyDigit(other: Digits, c: char) {
    Digit(c) || (c as int >= 128 && other(c))
  }

  predicate Hex(c: char) {
    Digit(c) || 'a' <= c <= 'f'
  }

  predicate Letters(s: string, least: nat, most: nat) {
    least <= |s| <= most && forall c :: c in s ==> 'a' <= c <= 'z'
  }

  // Between the separators.
  function Split(s: string, separator: char): (parts: seq<string>)
    ensures |parts| > 0
  {
    if s == "" then [""]
    else
      var rest := Split(s[1..], separator);
      if s[0] == separator then [""] + rest else [[s[0]] + rest[0]] + rest[1..]
  }

  lemma {:induction false} SplitLast(s: string, separator: char)
    requires separator !in s
    ensures Split(s, separator) == [s]
  {
    if s != "" {
      SplitLast(s[1..], separator);
      assert [s[0]] + s[1..] == s;
    }
  }

  lemma {:induction false} SplitFirst(first: string, rest: string, separator: char)
    requires separator !in first
    ensures Split(first + [separator] + rest, separator) == [first] + Split(rest, separator)
  {
    var all := first + [separator] + rest;
    if first == "" {
      assert all[1..] == rest;
    } else {
      assert all[1..] == first[1..] + [separator] + rest;
      SplitFirst(first[1..], rest, separator);
      assert [first[0]] + first[1..] == first;
    }
  }

  predicate RegionShape(other: Digits, s: string) {
    var parts := Split(s, '-');
    var n := |parts| - 1;
    && 2 <= n <= 4
    && Letters(parts[0], 2, 4)
    && (forall i :: 1 <= i < n ==> Letters(parts[i], 2, 12))
    && |parts[n]| == 1 && AnyDigit(other, parts[n][0])
  }

  predicate HexAfter(s: string, prefix: string) {
    && prefix <= s && (|s| == |prefix| + 8 || |s| == |prefix| + 17)
    && forall i :: |prefix| <= i < |s| ==> Hex(s[i])
  }

  // A UUID in canonical form, in letters of either case.
  predicate Uuid(s: string) {
    |s| == 36 && forall i :: 0 <= i < 36 ==>
      if i == 8 || i == 13 || i == 18 || i == 23 then s[i] == '-'
      else Hex(s[i]) || 'A' <= s[i] <= 'F'
  }

  predicate TagText(s: string, most: nat) {
    1 <= |s| <= most && SafeText(s)
  }

  // The texts that a kind of identifier accepts.
  predicate Accepts(other: Digits, kind: Kind, s: string) {
    match kind
    case AccountId => |s| == 12 && forall c :: c in s ==> AnyDigit(other, c)
    case Region => RegionShape(other, s)
    case VolumeId => HexAfter(s, "vol-")
    case InstanceId => HexAfter(s, "i-")
    case SnapshotId => HexAfter(s, "snap-")
    case AllocationId => HexAfter(s, "eipalloc-")
    case ScanUuid => Uuid(s)
    case TagKey => TagText(s, 128)
    case TagValue => TagText(s, 256)
  }

  predicate Ascii(s: string) {
    forall c :: c in s ==> c as int < 128
  }

  lemma {:induction false} CharactersOfParts(s: string, separator: char)
    ensures forall c :: c in s && c != separator ==> exists p :: p in Split(s, separator) && c in p
  {
    if s != "" {
      CharactersOfParts(s[1..], separator);
      var parts, rest := Split(s, separator), Split(s[1..], separator);
      forall c | c in s && c != separator
        ensures exists p :: p in parts && c in p
      {
        if c == s[0] {
          assert c in parts[0] && parts[0] in parts;
        } else {
          assert c in s[1..];
          var p :| p in rest && c in p;
          var k :| 0 <= k < |rest| && rest[k] == p;
          if s[0] == separator {
            assert parts[k + 1] == p;
          } else if k == 0 {
            assert c in parts[0] && parts[0] in parts;
          } else {
            assert parts[k] == p;
          }
        }
      }
    }
  }

  lemma RegionCharacters(other: Digits, s: string)
    requires RegionShape(other, s)
    ensures forall c :: c in s ==> SafeChar(c) || c as int >= 128
  {
    CharactersOfParts(s, '-');
    var parts := Split(s, '-');
    var n := |parts| - 1;
    forall c | c in s
      ensures SafeChar(c) || c as int >= 128
    {
      if c != '-' {
        var p :| p in parts && c in p;
        var k :| 0 <= k < |parts| && parts[k] == p;
        if k == n {
          assert c == parts[n][0];
        } else {
          assert Letters(p, 2, 4) || Letters(p, 2, 12);
        }
      }
    }
  }

  lemma HexCharacters(s: string, prefix: string)
    requires HexAfter(s, prefix) && SafeText(prefix)
    ensures SafeText(s)
  {
    forall c | c in s
      ensures SafeChar(c)
    {
      var i :| 0 <= i < |s| && s[i] == c;
      if i < |prefix| {
        assert s[i] == prefix[i] && prefix[i] in prefix;
      }
    }
  }

  // What keeps or may keep a meaning of its own inside double quotes (POSIX.1-2017, Shell Command
  // Language, section 2.2.3).
  predicate QuoteSpecial(c: char) {
    c == '$' || c == '`' || c == '"' || c == '\\' || c == '!' || c == '\n'
  }

  /** Only account ids and regions can hold a character that is not safe, and only a digit outside
      ASCII: an accepted text is safe exactly when it is ASCII. No accepted text holds a character
      that is special inside double quotes. */
  lemma AcceptedIsSafeExactly(other: Digits, kind: Kind, s: string)
    requires Accepts(other, kind, s)
    ensures SafeText(s) <==> Ascii(s)
    ensures kind != AccountId && kind != Region ==> SafeText(s)
    ensures forall c :: c in s ==> !QuoteSpecial(c)
  {
    hide RegionShape, HexAfter, Uuid;
    match kind
    case AccountId =>
    case Region => RegionCharacters(other, s);
    case VolumeId => HexCharacters(s, "vol-");
    case InstanceId => HexCharacters(s, "i-");
    case SnapshotId => HexCharacters(s, "snap-");
    case AllocationId => HexCharacters(s, "eipalloc-");
    case ScanUuid => UuidCharacters(s);
    case TagKey =>
    case TagValue =>
  }

  lemma UuidCharacters(s: string)
    requires Uuid(s)
    ensures SafeText(s)
  {
    forall c | c in s
      ensures SafeChar(c)
    {
      var i :| 0 <= i < |s| && s[i] == c;
    }
  }
}
