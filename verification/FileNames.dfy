/** How positions, types and tags become file names, and what the names still tell. */
module FileNames {
  import opened Domain

  // ----- event files: zero-padded decimal positions -----

  const U64_MAX: nat := 0xFFFF_FFFF_FFFF_FFFF
  const SUFFIX := ".json"

  function DigitChar(d: nat): char
    requires d < 10
  {
    ('0' as int + d) as char
  }

  predicate IsDigit(c: char) { '0' <= c <= '9' }

  function Digits(n: nat): (s: string)
    ensures s != [] && forall c | c in s :: IsDigit(c)
  {
    if n < 10 then [DigitChar(n)] else Digits(n / 10) + [DigitChar(n % 10)]
  }

  function Zeros(n: nat): string {
    seq(n, i => '0')
  }

  /** `{:010}` */
  function Padded(position: nat): string {
    var d := Digits(position);
    if |d| < 10 then Zeros(10 - |d|) + d else d
  }

  function EventFileName(position: nat): string {
    Padded(position) + SUFFIX
  }

  function DecimalValue(s: string): nat
    requires forall c | c in s :: IsDigit(c)
  {
    if s == [] then 0 else
    assert IsDigit(s[|s| - 1]);
    DecimalValue(s[..|s| - 1]) * 10 + (s[|s| - 1] as int - '0' as int)
  }

  function Unsigned(s: string): string {
    if s != [] && s[0] == '+' then s[1..] else s
  }

  /** Decimal `u64` parsing: an optional plus sign, at least one digit, nothing else, no overflow. */
  function ParseU64(s: string): Option<nat> {
    var digits := Unsigned(s);
    if digits == [] || exists i | 0 <= i < |digits| :: !IsDigit(digits[i]) then None
    else if DecimalValue(digits) > U64_MAX then None
    else Some(DecimalValue(digits))
  }

  function ParseEventFileName(name: string): Option<nat> {
    if |name| >= |SUFFIX| && name[|name| - |SUFFIX|..] == SUFFIX
    then ParseU64(name[..|name| - |SUFFIX|])
    else None
  }

  lemma {:induction false} DigitsValue(n: nat)
    ensures DecimalValue(Digits(n)) == n
  {
    if n >= 10 {
      DigitsValue(n / 10);
      var s := Digits(n);
      assert s[..|s| - 1] == Digits(n / 10);
    }
  }

  lemma {:induction false} LeadingZeros(n: nat, s: string)
    requires forall c | c in s :: IsDigit(c)
    ensures forall c | c in Zeros(n) + s :: IsDigit(c)
    ensures DecimalValue(Zeros(n) + s) == DecimalValue(s)
  {
    var t := Zeros(n) + s;
    if s != [] {
      LeadingZeros(n, s[..|s| - 1]);
      assert t[..|t| - 1] == Zeros(n) + s[..|s| - 1];
    } else if n > 0 {
      LeadingZeros(n - 1, s);
      assert t[..|t| - 1] == Zeros(n - 1) + s;
    }
  }

  lemma PaddedValue(position: nat)
    ensures Padded(position) != [] && forall c | c in Padded(position) :: IsDigit(c)
    ensures DecimalValue(Padded(position)) == position
  {
    var d := Digits(position);
    DigitsValue(position);
    if |d| < 10 { LeadingZeros(10 - |d|, d); }
  }

  lemma ParseStem(stem: string)
    requires stem != [] && forall c | c in stem :: IsDigit(c)
    ensures ParseEventFileName(stem + SUFFIX) == if DecimalValue(stem) <= U64_MAX then Some(DecimalValue(stem)) else None
  {
    var name := stem + SUFFIX;
    assert name[..|name| - |SUFFIX|] == stem && name[|name| - |SUFFIX|..] == SUFFIX;
    assert IsDigit(stem[0]);
  }

  /** The name of an event file determines its position, whatever its width; past
      `u64::MAX` the scan no longer sees the file. */
  lemma RoundTrip(position: nat)
    ensures ParseEventFileName(EventFileName(position)) ==
            if position <= U64_MAX then Some(position) else None
  {
    PaddedValue(position);
    ParseStem(Padded(position));
  }

  lemma {:induction false} NoLeadingZero(n: nat)
    ensures Digits(n)[0] == '0' ==> n == 0
    ensures n < 10 <==> |Digits(n)| == 1
  {
    if n >= 10 { NoLeadingZero(n / 10); }
  }

  /** Ten digits at least, and more only if the position has more: no zero is put in front then.
      With the value this determines the name. */
  lemma PaddedWidth(position: nat)
    ensures |Padded(position)| >= 10
    ensures |Padded(position)| > 10 ==> Padded(position)[0] != '0'
  {
    NoLeadingZero(position);
  }

  ghost predicate AllDigits(s: string) {
    s != [] && forall c | c in s :: IsDigit(c)
  }

  ghost predicate ParsesVia(name: string, digits: string, n: nat) {
    AllDigits(digits) && Spells(name, digits) && DecimalValue(digits) == n <= U64_MAX
  }

  /** Exactly which names parse, to what: an optional plus sign, digits with a value that is a
      `u64`, and the suffix. */
  lemma ParsesExactly(name: string, n: nat)
    ensures ParseEventFileName(name) == Some(n) <==> exists digits :: ParsesVia(name, digits, n)
  {
    if ParseEventFileName(name) == Some(n) {
      var digits := ParsedDigits(name);
      assert ParsesVia(name, digits, n);
    }
    if digits :| ParsesVia(name, digits, n) {
      SpelledParses(name, digits);
    }
  }

  lemma ParsedDigits(name: string) returns (digits: string)
    requires ParseEventFileName(name).Some?
    ensures AllDigits(digits) && Spells(name, digits)
    ensures ParseEventFileName(name).value == DecimalValue(digits) <= U64_MAX
  {
    var stem := name[..|name| - |SUFFIX|];
    digits := Unsigned(stem);
    assert name == stem + SUFFIX && (stem == digits || stem == "+" + digits);
    assert ParseU64(stem).Some?;
    forall c | c in digits ensures IsDigit(c) {
      var i :| 0 <= i < |digits| && digits[i] == c;
      assert IsDigit(digits[i]);
    }
  }

  lemma SpelledParses(name: string, digits: string)
    requires AllDigits(digits) && Spells(name, digits)
    ensures ParseEventFileName(name) == if DecimalValue(digits) <= U64_MAX then Some(DecimalValue(digits)) else None
  {
    if name == digits + SUFFIX {
      ParseStem(digits);
    } else {
      var stem := "+" + digits;
      assert name == stem + SUFFIX;
      assert name[..|name| - |SUFFIX|] == stem && name[|name| - |SUFFIX|..] == SUFFIX;
      assert stem[1..] == digits;
    }
  }

  predicate Spells(name: string, digits: string) {
    name == digits + SUFFIX || name == "+" + digits + SUFFIX
  }

  /** Where the event file of a position lies. */
  function EventPath(position: nat): string {
    "Events/" + EventFileName(position)
  }

  /** What `split('/').next_back()` yields. */
  function LastSegment(path: string): string {
    if '/' in path then LastSegment(path[1..]) else path
  }

  function ParseEventPath(path: string): Option<nat> {
    ParseEventFileName(LastSegment(path))
  }

  lemma {:induction false} LastAfter(directory: string, name: string)
    requires '/' !in name
    ensures LastSegment(directory + "/" + name) == name
  {
    var path := directory + "/" + name;
    assert path[|directory|] == '/';
    if directory == [] {
      assert path[1..] == name;
    } else {
      LastAfter(directory[1..], name);
      assert path[1..] == directory[1..] + "/" + name;
    }
  }

  lemma NoSlash(position: nat)
    ensures '/' !in EventFileName(position)
  {
    PaddedValue(position);
    assert forall c | c in Padded(position) :: IsDigit(c);
  }

  /** The path of an event file determines its position. */
  lemma PathRoundTrip(position: nat)
    ensures ParseEventPath(EventPath(position)) == if position <= U64_MAX then Some(position) else None
  {
    NoSlash(position);
    LastAfter("Events", EventFileName(position));
    assert EventPath(position) == "Events" + "/" + EventFileName(position);
    RoundTrip(position);
  }

  // ----- index files: sanitised names -----

  function LowerChar(c: char): char {
    if 'A' <= c <= 'Z' then (c as int + 32) as char else c
  }

  function Lower(s: string): string {
    seq(|s|, i requires 0 <= i < |s| => LowerChar(s[i]))
  }

  function SanitizeChar(c: char): char {
    if c in "/:*?" then '_' else LowerChar(c)
  }

  function Sanitize(name: string): string {
    seq(|name|, i requires 0 <= i < |name| => SanitizeChar(name[i]))
  }

  datatype IndexFile = TypeFile(name: string) | TagFile(name: string)

  function IndexPath(file: IndexFile): string {
    match file
    case TypeFile(name) => "Indices/EventTypes/" + name + SUFFIX
    case TagFile(name) => "Indices/Tags/" + name + SUFFIX
  }

  function FileOfType(eventType: string): IndexFile {
    TypeFile(Sanitize(eventType))
  }

  function FileOfTag(tag: Tag): IndexFile {
    TagFile(Sanitize(tag.key) + "_" + Sanitize(tag.value))
  }

  /** The index files an event is entered into, in writing order. */
  function FilesOf(event: DomainEvent): (files: seq<IndexFile>)
    ensures |files| == 1 + |event.tags|
  {
    [FileOfType(event.eventType)]
    + seq(|event.tags|, i requires 0 <= i < |event.tags| => FileOfTag(event.tags[i]))
  }

  lemma FilesOfMembers(event: DomainEvent, file: IndexFile)
    ensures file in FilesOf(event) <==>
            file == FileOfType(event.eventType) || exists t :: t in event.tags && file == FileOfTag(t)
    ensures FilesOf(event)[0] == FileOfType(event.eventType)
    ensures forall i | 0 <= i < |event.tags| :: FilesOf(event)[i + 1] == FileOfTag(event.tags[i])
  {
    var files := FilesOf(event);
    if file in files {
      var i :| 0 <= i < |files| && files[i] == file;
      if i > 0 {
        assert event.tags[i - 1] in event.tags && file == FileOfTag(event.tags[i - 1]);
      }
    }
    if file == FileOfType(event.eventType) { assert files[0] == file; }
    forall t | t in event.tags && file == FileOfTag(t) ensures file in files {
      var i :| 0 <= i < |event.tags| && event.tags[i] == t;
      assert files[i + 1] == file;
    }
  }

  // ----- which names share a file -----

  /** One ASCII letter in its two cases. */
  predicate TwoCases(upper: char, lower: char) {
    'A' <= upper <= 'Z' && lower as int == upper as int + 32
  }

  predicate SameLetter(a: char, b: char) {
    a == b || TwoCases(a, b) || TwoCases(b, a)
  }

  /** The characters that end up as an underscore. */
  predicate Underscored(c: char) { c in "/:*?_" }

  predicate Alike(a: char, b: char) {
    SameLetter(a, b) || (Underscored(a) && Underscored(b))
  }

  /** The same text up to ASCII letter case. */
  ghost predicate SameText(a: string, b: string) {
    |a| == |b| && forall i | 0 <= i < |a| :: SameLetter(a[i], b[i])
  }

  /** ... and up to the characters a file name cannot hold. */
  ghost predicate AlikeText(a: string, b: string) {
    |a| == |b| && forall i | 0 <= i < |a| :: Alike(a[i], b[i])
  }

  predicate IsUpper(c: char) { 'A' <= c <= 'Z' }

  predicate Forbidden(c: char) { c in "/:*?" }

  lemma LowerCharIff(a: char, b: char)
    ensures LowerChar(a) == LowerChar(b) <==> SameLetter(a, b)
  {
  }

  lemma SanitizeCharIff(a: char, b: char)
    ensures SanitizeChar(a) == SanitizeChar(b) <==> Alike(a, b)
  {
  }

  /** Lower-casing forgets the letter case and nothing else, and leaves no capital. */
  lemma LowerIff(a: string, b: string)
    ensures Lower(a) == Lower(b) <==> SameText(a, b)
    ensures SameText(Lower(a), a) && forall c | c in Lower(a) :: !IsUpper(c)
  {
    forall i | 0 <= i < |a| && i < |b| ensures Lower(a)[i] == Lower(b)[i] <==> SameLetter(a[i], b[i]) {
      LowerCharIff(a[i], b[i]);
    }
  }

  /** What sanitising forgets, and that it leaves neither a capital nor a forbidden character. */
  lemma SanitizeIff(a: string, b: string)
    ensures Sanitize(a) == Sanitize(b) <==> AlikeText(a, b)
    ensures AlikeText(Sanitize(a), a) && forall c | c in Sanitize(a) :: !IsUpper(c) && !Forbidden(c)
  {
    forall i | 0 <= i < |a| && i < |b| ensures Sanitize(a)[i] == Sanitize(b)[i] <==> Alike(a[i], b[i]) {
      SanitizeCharIff(a[i], b[i]);
    }
  }

  /** Exactly which types share a file. */
  lemma FileOfTypeIff(a: string, b: string)
    ensures FileOfType(a) == FileOfType(b) <==> AlikeText(a, b)
  {
    SanitizeIff(a, b);
  }

  function Joined(tag: Tag): string {
    tag.key + "_" + tag.value
  }

  lemma TagFileName(tag: Tag)
    ensures FileOfTag(tag) == TagFile(Sanitize(Joined(tag)))
  {
    assert Sanitize(Joined(tag)) == Sanitize(tag.key) + "_" + Sanitize(tag.value);
  }

  /** Exactly which tags share a file: those alike once key and value are joined. */
  lemma FileOfTagIff(a: Tag, b: Tag)
    ensures FileOfTag(a) == FileOfTag(b) <==> AlikeText(Joined(a), Joined(b))
  {
    TagFileName(a);
    TagFileName(b);
    SanitizeIff(Joined(a), Joined(b));
  }

  /** The names of one position, one type and one tag. */
  lemma NamesOfThree()
    ensures EventFileName(7) == "0000000007.json"
    ensures FileOfType("A/b") == TypeFile("a_b")
    ensures FileOfTag(Tag("Ab", "C")) == TagFile("ab_c")
    ensures IndexPath(FileOfType("A/b")) == "Indices/EventTypes/" + "a_b" + ".json"
    ensures IndexPath(FileOfTag(Tag("Ab", "C"))) == "Indices/Tags/" + "ab_c" + ".json"
  {
    PaddedSeven();
    assert Sanitize("A/b") == "a_b";
    assert Sanitize("Ab") == "ab" && Sanitize("C") == "c";
  }

  lemma PaddedSeven()
    ensures Padded(7) == "0000000007"
  {
    assert Digits(7) == "7";
    assert Zeros(9) == "000000000";
  }

  /** The names in use. Sets are possibly infinite: decisions may produce any event. */
  datatype Vocabulary = Vocabulary(types: iset<string>, tags: iset<Tag>)

  /** The file-name map is injective on the names in use. */
  ghost predicate AliasFree(v: Vocabulary) {
    && (forall a, b | a in v.types && b in v.types && FileOfType(a) == FileOfType(b) :: a == b)
    && (forall a, b | a in v.tags && b in v.tags && FileOfTag(a) == FileOfTag(b) :: a == b)
  }

  ghost predicate Covers(v: Vocabulary, event: DomainEvent) {
    event.eventType in v.types && forall t | t in event.tags :: t in v.tags
  }

  ghost predicate CoversQuery(v: Vocabulary, query: Query) {
    forall item | item in query.items ::
      (forall t | t in item.eventTypes :: t in v.types) && (forall t | t in item.tags :: t in v.tags)
  }

  ghost predicate CoversBatch(v: Vocabulary, batch: seq<EventData>) {
    forall e | e in batch :: Covers(v, e.event)
  }

  ghost predicate CoversLog(v: Vocabulary, log: seq<EventRecord>) {
    forall r | r in log :: Covers(v, r.event)
  }

  /** No capital and no forbidden character. */
  predicate Plain(name: string) {
    forall c | c in name :: !IsUpper(c) && !Forbidden(c)
  }

  lemma PlainAlike(a: string, b: string)
    requires Plain(a) && Plain(b) && AlikeText(a, b)
    ensures a == b
  {
    forall i | 0 <= i < |a| ensures a[i] == b[i] {
      assert a[i] in a && b[i] in b && Alike(a[i], b[i]);
    }
  }

  /** Without underscores in the key, the first underscore is the joining one. */
  lemma KeyEnds(tag: Tag)
    requires '_' !in tag.key
    ensures Joined(tag)[|tag.key|] == '_' && forall i | 0 <= i < |tag.key| :: Joined(tag)[i] != '_'
    ensures Joined(tag)[..|tag.key|] == tag.key && Joined(tag)[|tag.key| + 1..] == tag.value
  {
    forall i | 0 <= i < |tag.key| ensures Joined(tag)[i] != '_' {
      assert Joined(tag)[i] == tag.key[i] && tag.key[i] in tag.key;
    }
  }

  lemma JoinedApart(a: Tag, b: Tag)
    requires '_' !in a.key && '_' !in b.key && Joined(a) == Joined(b)
    ensures a == b
  {
    KeyEnds(a);
    KeyEnds(b);
    assert |a.key| == |b.key|;
  }

  /** Names in use that never collide: plain ones, with no underscore in a tag's key. */
  lemma PlainNamesAreAliasFree(v: Vocabulary)
    requires forall t | t in v.types :: Plain(t)
    requires forall t | t in v.tags :: Plain(t.key) && '_' !in t.key && Plain(t.value)
    ensures AliasFree(v)
  {
    forall a, b | a in v.types && b in v.types && FileOfType(a) == FileOfType(b) ensures a == b {
      FileOfTypeIff(a, b);
      PlainAlike(a, b);
    }
    forall a, b | a in v.tags && b in v.tags && FileOfTag(a) == FileOfTag(b) ensures a == b {
      FileOfTagIff(a, b);
      PlainAlike(Joined(a), Joined(b));
      JoinedApart(a, b);
    }
  }

  /** Both kinds of aliasing happen: letter case in a type, and the joining underscore in a tag. */
  lemma NamesCollide()
    ensures "A" != "a" && FileOfType("A") == FileOfType("a")
    ensures Tag("a_b", "c") != Tag("a", "b_c") && FileOfTag(Tag("a_b", "c")) == FileOfTag(Tag("a", "b_c"))
  {
    assert Sanitize("A") == Sanitize("a");
    assert Sanitize("a_b") + "_" + Sanitize("c") == "a_b_c" == Sanitize("a") + "_" + Sanitize("b_c");
  }
}
