/** The /proc/mounts reader: `parseMountEntry` and `partitionInfo` of pkg/block/block_device.go. */
module MountTable {
  import opened Strings

  // ---------------------------------------------------------------- fields

  /** The characters for which Go's `unicode.IsSpace` holds. */
  predicate IsSpace(c: char) {
    || c == '\t' || c == '\n' || c == ' ' || c == '\r'
    || c == 0x0b as char || c == 0x0c as char || c == 0x85 as char || c == 0xa0 as char
    || c == 0x1680 as char || 0x2000 as char <= c <= 0x200a as char
    || c == 0x2028 as char || c == 0x2029 as char || c == 0x202f as char || c == 0x205f as char || c == 0x3000 as char
  }

  predicate NoSpace(s: string) { forall i | 0 <= i < |s| :: !IsSpace(s[i]) }

  /** A non-empty run of non-space characters. */
  predicate IsWord(s: string) { s != "" && NoSpace(s) }

  /** The longest prefix of `s` without a space. */
  function Word(s: string): (w: string)
    ensures w <= s && NoSpace(w)
  {
    if s == "" || IsSpace(s[0]) then "" else [s[0]] + Word(s[1..])
  }

  /** `strings.Fields` */
  function Fields(s: string): seq<string>
    decreases |s|
  {
    if s == "" then []
    else if IsSpace(s[0]) then Fields(s[1..])
    else
      var w := Word(s);
      assert w[0] == s[0];
      [w] + Fields(s[|w|..])
  }

  lemma {:induction false} WordStopsAtSpace(w: string, rest: string)
    requires NoSpace(w)
    requires rest == "" || IsSpace(rest[0])
    ensures Word(w + rest) == w
  {
    if w == "" {
      assert w + rest == rest;
    } else {
      WordStopsAtSpace(w[1..], rest);
      assert (w + rest)[1..] == w[1..] + rest;
    }
  }

  /** Splitting a line of words joined by single spaces gives the words back. */
  lemma {:induction false} FieldsJoin(words: seq<string>)
    requires forall i | 0 <= i < |words| :: IsWord(words[i])
    ensures Fields(Join(words, ' ')) == words
  {
    if |words| == 0 {
    } else {
      var rest := if |words| == 1 then "" else [' '] + Join(words[1..], ' ');
      var line := words[0] + rest;
      assert Join(words, ' ') == line;
      WordStopsAtSpace(words[0], rest);
      assert line[|words[0]|..] == rest;
      FieldsJoin(words[1..]);
      if |words| > 1 {
        assert rest[1..] == Join(words[1..], ' ');
      }
    }
  }

  /** Each of Go's white-space characters up to U+00FF separates two words. */
  lemma SpaceSeparates(a: string, c: char, b: string)
    requires IsWord(a) && IsWord(b)
    requires c in {'\t', '\n', 0x0b as char, 0x0c as char, '\r', ' ', 0x85 as char, 0xa0 as char}
    ensures Fields(a + [c] + b) == [a, b]
  {
    var s := a + ([c] + b);
    assert a + [c] + b == s && s[|a|..] == [c] + b && ([c] + b)[1..] == b;
    WordStopsAtSpace(a, [c] + b);
    WordStopsAtSpace(b, "");
    assert b + "" == b && b[|b|..] == "";
    assert Fields([c] + b) == Fields(b) == [b];
    assert s[0] == a[0];
  }

  // ---------------------------------------------------------------- escapes

  /** The `strings.Replacer` of parseMountEntry: one left-to-right pass, never looking at its own output. */
  function Decode(s: string): string {
    if s == "" then ""
    else if "\\011" <= s then "\t" + Decode(s[4..])
    else if "\\012" <= s then "\n" + Decode(s[4..])
    else if "\\040" <= s then " " + Decode(s[4..])
    else if "\\\\" <= s then "\\" + Decode(s[2..])
    else [s[0]] + Decode(s[1..])
  }

  function Escape(c: char): string {
    if c == '\t' then "\\011"
    else if c == '\n' then "\\012"
    else if c == ' ' then "\\040"
    else if c == '\\' then "\\\\"
    else [c]
  }

  /** The encoder that parseMountEntry's comment describes. */
  function Encode(s: string): string {
    if s == "" then "" else Escape(s[0]) + Encode(s[1..])
  }

  lemma DecodeEscape(c: char, rest: string)
    ensures Decode(Escape(c) + rest) == [c] + Decode(rest)
  {
    var e := Escape(c) + rest;
    assert e[..|Escape(c)|] == Escape(c) && e[|Escape(c)|..] == rest;
    assert e[0] == Escape(c)[0];
    if |Escape(c)| > 1 { assert e[1] == Escape(c)[1]; }
    if |Escape(c)| > 2 { assert e[2] == Escape(c)[2] && e[3] == Escape(c)[3]; }
  }

  /** The single-pass decoder inverts the encoder on every string. */
  lemma {:induction false} DecodeEncode(s: string)
    ensures Decode(Encode(s)) == s
  {
    if s == "" {
    } else {
      DecodeEncode(s[1..]);
      var e := Encode(s);
      var rest := Encode(s[1..]);
      assert e == Escape(s[0]) + rest && e[|Escape(s[0])|..] == rest;
      DecodeEscape(s[0], rest);
      assert s == [s[0]] + s[1..];
    }
  }

  predicate StartsEscape(s: string) { "\\011" <= s || "\\012" <= s || "\\040" <= s || "\\\\" <= s }

  /** Everything that is not one of the four escapes is kept as it is. */
  lemma {:induction false} DecodeKeepsTheRest(s: string)
    requires forall i | 0 <= i < |s| :: !StartsEscape(s[i..])
    ensures Decode(s) == s
  {
    if s != "" {
      assert s[0..] == s;
      forall i | 0 <= i < |s[1..]| ensures !StartsEscape(s[1..][i..]) {
        assert s[1..][i..] == s[i + 1..];
      }
      DecodeKeepsTheRest(s[1..]);
    }
  }

  lemma {:induction false} EncodeIsWord(s: string)
    requires forall i | 0 <= i < |s| :: IsSpace(s[i]) ==> s[i] in " \t\n"
    ensures NoSpace(Encode(s))
    ensures s != "" ==> Encode(s) != ""
  {
    if s != "" {
      EncodeIsWord(s[1..]);
    }
  }

  /** `strings.ReplaceAll` */
  function ReplaceAll(s: string, old_: string, new_: string): string
    requires old_ != ""
  {
    if s == "" then ""
    else if old_ <= s then new_ + ReplaceAll(s[|old_|..], old_, new_)
    else [s[0]] + ReplaceAll(s[1..], old_, new_)
  }

  /** The same four replacements applied one after another. */
  function DecodeSequentially(s: string): string {
    ReplaceAll(ReplaceAll(ReplaceAll(ReplaceAll(s, "\\011", "\t"), "\\012", "\n"), "\\040", " "), "\\\\", "\\")
  }

  /** A mount point with the literal text backslash-040 tells the two decoders apart. */
  lemma SequentialDecodingIsNotAnInverse()
    ensures Encode("\\040") == "\\\\040"
    ensures Decode("\\\\040") == "\\040"
    ensures DecodeSequentially("\\\\040") == "\\ "
  {
    Untouched("040", "\\011", "\t");
    Untouched("040", "\\012", "\n");
    Untouched(" ", "\\\\", "\\");
    var escaped, doubled := "\\040", "\\\\040";
    assert escaped[1..] == "040" && escaped[2..] == "40" && escaped[3..] == "0";
    assert doubled[1..] == escaped && doubled[2..] == "040";
    DecodeEncode(escaped);
    assert Encode(escaped) == doubled by { assert Encode("040") == "040"; }
    assert escaped[1] == '0' && doubled[1] == '\\' && escaped[2] == '4';
    assert ReplaceAll(escaped, "\\011", "\t") == escaped == ReplaceAll(escaped, "\\012", "\n");
    assert ReplaceAll(doubled, "\\011", "\t") == doubled == ReplaceAll(doubled, "\\012", "\n");
    assert ReplaceAll(escaped, "\\040", " ") == " ";
    assert ReplaceAll(doubled, "\\040", " ") == "\\ ";
    assert "\\ "[1..] == " " && "\\ "[1] == ' ';
  }

  lemma {:induction false} Untouched(s: string, old_: string, new_: string)
    requires old_ != "" && old_[0] !in s
    ensures ReplaceAll(s, old_, new_) == s
  {
    if s != "" { Untouched(s[1..], old_, new_); }
  }

  // ---------------------------------------------------------------- entries

  datatype MountEntry = MountEntry(partition: string, mountPoint: string, fsType: string, options: seq<string>)

  /** `parseMountEntry`: indexing an empty line panics. */
  datatype Parsed = Panic | NoEntry | Entry(entry: MountEntry)

  function ParseMountEntry(line: string): Parsed {
    if line == "" then Panic
    else if line[0] != '/' then NoEntry
    else
      var fields := Fields(line);
      if |fields| < 4 then NoEntry
      else Entry(MountEntry(fields[0], Decode(fields[1]), fields[2], Split(fields[3], ',')))
  }

  /** A line of words is an entry if and only if there are four, the first of which starts with a slash. */
  lemma ParseWords(words: seq<string>)
    requires words != [] && forall i | 0 <= i < |words| :: IsWord(words[i])
    ensures ParseMountEntry(Join(words, ' ')) ==
            if |words| >= 4 && "/" <= words[0] then
              Entry(MountEntry(words[0], Decode(words[1]), words[2], Split(words[3], ',')))
            else NoEntry
  {
    FieldsJoin(words);
    assert Join(words, ' ')[0] == words[0][0];
  }

  /** What the kernel can print so that a reader can tell the fields apart. */
  predicate WellFormed(e: MountEntry) {
    && IsWord(e.partition) && e.partition[0] == '/'
    && e.mountPoint != ""
    && (forall i | 0 <= i < |e.mountPoint| :: IsSpace(e.mountPoint[i]) ==> e.mountPoint[i] in " \t\n")
    && IsWord(e.fsType)
    && |e.options| >= 1 && (forall i | 0 <= i < |e.options| :: ',' !in e.options[i])
    && IsWord(Join(e.options, ','))
  }

  function PrintEntry(e: MountEntry): string {
    Join([e.partition, Encode(e.mountPoint), e.fsType, Join(e.options, ','), "0", "0"], ' ')
  }

  /** Parsing a printed entry returns it. */
  lemma ParsePrinted(e: MountEntry)
    requires WellFormed(e)
    ensures ParseMountEntry(PrintEntry(e)) == Entry(e)
  {
    var words := [e.partition, Encode(e.mountPoint), e.fsType, Join(e.options, ','), "0", "0"];
    EncodeIsWord(e.mountPoint);
    FieldsJoin(words);
    DecodeEncode(e.mountPoint);
    SplitJoin(e.options, ',');
    assert PrintEntry(e)[0] == e.partition[0];
  }

  // ---------------------------------------------------------------- search

  datatype PartitionInfo = Panicked | Info(mountPoint: string, fsType: string, readOnly: bool)

  /** The answer for a device that is not mounted, or when the table cannot be opened. */
  const NOT_MOUNTED := Info("", "", true)

  function DevicePath(part: string): string {
    if HasPrefix(part, "/dev") then part else "/dev/" + part
  }

  function InfoOf(e: MountEntry): PartitionInfo {
    Info(e.mountPoint, e.fsType, "rw" !in e.options)
  }

  predicate Matches(line: string, dev: string) {
    var parsed := ParseMountEntry(line);
    parsed.Entry? && parsed.entry.partition == dev
  }

  /** The first line that either matches or cannot be parsed decides. */
  function Search(lines: seq<string>, dev: string): PartitionInfo {
    if lines == [] then NOT_MOUNTED
    else if lines[0] == "" then Panicked
    else if Matches(lines[0], dev) then InfoOf(ParseMountEntry(lines[0]).entry)
    else Search(lines[1..], dev)
  }

  lemma SearchUnfolds(lines: seq<string>, i: nat, dev: string)
    requires i < |lines|
    ensures Search(lines[i..], dev) ==
            if ParseMountEntry(lines[i]).Panic? then Panicked
            else if Matches(lines[i], dev) then InfoOf(ParseMountEntry(lines[i]).entry)
            else Search(lines[i + 1..], dev)
  {
    assert lines[i..][0] == lines[i] && lines[i..][1..] == lines[i + 1..];
  }

  /** The option loop of `partitionInfo`. */
  method IsReadOnly(options: seq<string>) returns (ro: bool)
    ensures ro <==> "rw" !in options
  {
    ro := true;
    var j := 0;
    while j < |options|
      invariant 0 <= j <= |options|
      invariant ro <==> "rw" !in options[..j]
    {
      if options[j] == "rw" {
        ro := false;
        break;
      }
      j := j + 1;
    }
    assert ro ==> options[..j] == options;
  }

  /** The lines that a `bufio.Scanner` yields: a final newline ends the last line, and a carriage return before a
      newline is dropped. */
  function ScanLines(text: string): seq<string>
    decreases |text|
  {
    if text == "" then []
    else match Cut(text, '\n')
      case None => [TrimSuffix(text, "\r")]
      case Some(halves) =>
        CutShrinks(text, '\n');
        [TrimSuffix(halves.0, "\r")] + ScanLines(halves.1)
  }

  /** A line ends before a newline, or before a carriage return and a newline, or at the end of the text. */
  lemma ScanOneLine(line: string, rest: string)
    requires IsLine(line)
    ensures ScanLines(line + ['\n'] + rest) == [line] + ScanLines(rest)
    ensures ScanLines(line + ['\r'] + ['\n'] + rest) == [line] + ScanLines(rest)
    ensures line != "" ==> ScanLines(line) == [line]
  {
    CutAtFirst(line, rest, '\n');
    CutAtFirst(line + ['\r'], rest, '\n');
    NoCut(line, '\n');
    if |line| > 0 { assert line[|line| - 1..][0] != "\r"[0]; }
    assert TrimSuffix(line, "\r") == line;
    assert (line + ['\r'])[|line|..] == "\r";
  }

  lemma CutShrinks(s: string, c: char)
    ensures Cut(s, c).Some? ==> |Cut(s, c).value.1| < |s|
  {
  }

  /** `partitionInfo`; `table` is None when /proc/mounts cannot be opened. */
  method GetPartitionInfo(table: Option<string>, part: string) returns (info: PartitionInfo)
    ensures info == if table.None? then Info("", "", true) else Search(ScanLines(table.value), DevicePath(part))
  {
    var dev := part;
    if !HasPrefix(part, "/dev") {
      dev := "/dev/" + part;
    }
    if table.None? {
      return NOT_MOUNTED;
    }
    var lines := ScanLines(table.value);
    var i := 0;
    while i < |lines|
      invariant 0 <= i <= |lines|
      invariant Search(lines, dev) == Search(lines[i..], dev)
    {
      SearchUnfolds(lines, i, dev);
      var parsed := ParseMountEntry(lines[i]);
      if parsed.Panic? {
        return Panicked;
      }
      if parsed.Entry? && parsed.entry.partition == dev {
        var ro := IsReadOnly(parsed.entry.options);
        return Info(parsed.entry.mountPoint, parsed.entry.fsType, ro);
      }
      i := i + 1;
    }
    info := NOT_MOUNTED;
  }

  /** The reader panics exactly when it reaches an empty line before any match. */
  lemma {:induction false} PanicsExactlyOnEmptyLine(lines: seq<string>, dev: string)
    ensures Search(lines, dev).Panicked? <==>
            exists k | 0 <= k < |lines| :: lines[k] == "" && forall j | 0 <= j < k :: !Matches(lines[j], dev)
  {
    if lines != [] {
      var rest := lines[1..];
      PanicsExactlyOnEmptyLine(rest, dev);
      if lines[0] != "" && !Matches(lines[0], dev) {
        if k :| 0 <= k < |rest| && rest[k] == "" && forall j | 0 <= j < k :: !Matches(rest[j], dev) {
          assert lines[k + 1] == "";
          forall j | 0 <= j < k + 1 ensures !Matches(lines[j], dev) {
            if j > 0 { assert lines[j] == rest[j - 1]; }
          }
        }
        if k :| 0 <= k < |lines| && lines[k] == "" && forall j | 0 <= j < k :: !Matches(lines[j], dev) {
          assert rest[k - 1] == "";
          forall j | 0 <= j < k - 1 ensures !Matches(rest[j], dev) {
            assert rest[j] == lines[j + 1];
          }
        }
      }
    }
  }

  // ---------------------------------------------------------------- printed tables

  /** One line of the abstract table: a mount entry, or a line that does not start with "/". */
  datatype Row = Mount(entry: MountEntry) | Other(line: string)

  predicate ValidRow(row: Row) {
    match row
    case Mount(entry) => WellFormed(entry)
    case Other(line) => line != "" && line[0] != '/' && IsLine(line)
  }

  predicate IsLine(s: string) { '\n' !in s && (s != "" ==> s[|s| - 1] != '\r') }

  function Render(rows: seq<Row>): seq<string> {
    seq(|rows|, i requires 0 <= i < |rows| => if rows[i].Mount? then PrintEntry(rows[i].entry) else rows[i].line)
  }

  function Text(lines: seq<string>): string {
    if lines == [] then "" else lines[0] + ['\n'] + Text(lines[1..])
  }

  lemma {:induction false} ScanText(lines: seq<string>)
    requires forall i | 0 <= i < |lines| :: IsLine(lines[i])
    ensures ScanLines(Text(lines)) == lines
  {
    if lines != [] {
      ScanOneLine(lines[0], Text(lines[1..]));
      ScanText(lines[1..]);
    }
  }

  lemma {:induction false} JoinedWordsAreOneLine(words: seq<string>)
    requires words != [] && forall i | 0 <= i < |words| :: IsWord(words[i])
    ensures IsLine(Join(words, ' ')) && Join(words, ' ') != ""
  {
    if |words| > 1 { JoinedWordsAreOneLine(words[1..]); }
  }

  /** Reading the printed text of a table gives back its lines. */
  lemma PrintedTableScans(rows: seq<Row>)
    requires forall i | 0 <= i < |rows| :: ValidRow(rows[i])
    ensures ScanLines(Text(Render(rows))) == Render(rows)
  {
    forall i | 0 <= i < |rows| ensures IsLine(Render(rows)[i]) {
      if rows[i].Mount? {
        var e := rows[i].entry;
        EncodeIsWord(e.mountPoint);
        JoinedWordsAreOneLine([e.partition, Encode(e.mountPoint), e.fsType, Join(e.options, ','), "0", "0"]);
      }
    }
    ScanText(Render(rows));
  }

  predicate IsFor(row: Row, dev: string) { row.Mount? && row.entry.partition == dev }

  lemma RenderedRowMatches(row: Row, dev: string)
    requires ValidRow(row)
    ensures Render([row])[0] != ""
    ensures Matches(Render([row])[0], dev) <==> IsFor(row, dev)
    ensures row.Mount? ==> ParseMountEntry(Render([row])[0]) == Entry(row.entry)
  {
    if row.Mount? { ParsePrinted(row.entry); }
  }

  /** Searching the printed table finds exactly the first entry of the device in the abstract table. */
  lemma {:induction false} SearchFindsFirstEntry(rows: seq<Row>, dev: string, k: nat)
    requires forall i | 0 <= i < |rows| :: ValidRow(rows[i])
    requires k < |rows| && IsFor(rows[k], dev)
    requires forall j | 0 <= j < k :: !IsFor(rows[j], dev)
    ensures Search(Render(rows), dev) ==
            Info(rows[k].entry.mountPoint, rows[k].entry.fsType, !("rw" in rows[k].entry.options))
  {
    RenderedRowMatches(rows[0], dev);
    assert Render(rows)[0] == Render([rows[0]])[0];
    if k > 0 {
      assert Render(rows)[1..] == Render(rows[1..]);
      SearchFindsFirstEntry(rows[1..], dev, k - 1);
    }
  }

  /** A device without an entry is reported as not mounted. */
  lemma {:induction false} SearchMissesAbsentDevice(rows: seq<Row>, dev: string)
    requires forall i | 0 <= i < |rows| :: ValidRow(rows[i]) && !IsFor(rows[i], dev)
    ensures Search(Render(rows), dev) == NOT_MOUNTED
  {
    if rows != [] {
      RenderedRowMatches(rows[0], dev);
      assert Render(rows)[0] == Render([rows[0]])[0];
      assert Render(rows)[1..] == Render(rows[1..]);
      SearchMissesAbsentDevice(rows[1..], dev);
    }
  }

  /** The answer about a printed table: its first entry for the device, or not mounted. */
  lemma PrintedTableAnswers(rows: seq<Row>, dev: string)
    requires forall i | 0 <= i < |rows| :: ValidRow(rows[i])
    ensures var answer := Search(ScanLines(Text(Render(rows))), dev);
            if exists k | 0 <= k < |rows| :: IsFor(rows[k], dev) then
              exists k | 0 <= k < |rows| && IsFor(rows[k], dev) ::
                && (forall j | 0 <= j < k :: !IsFor(rows[j], dev))
                && answer == Info(rows[k].entry.mountPoint, rows[k].entry.fsType, !("rw" in rows[k].entry.options))
            else answer == Info("", "", true)
  {
    PrintedTableScans(rows);
    if k :| 0 <= k < |rows| && IsFor(rows[k], dev) {
      var first := FirstFor(rows, dev, k);
      SearchFindsFirstEntry(rows, dev, first);
    } else {
      SearchMissesAbsentDevice(rows, dev);
    }
  }

  function FirstFor(rows: seq<Row>, dev: string, k: nat): (first: nat)
    requires k < |rows| && IsFor(rows[k], dev)
    ensures first <= k && IsFor(rows[first], dev)
    ensures forall j | 0 <= j < first :: !IsFor(rows[j], dev)
  {
    if IsFor(rows[0], dev) then 0 else 1 + FirstFor(rows[1..], dev, k - 1)
  }

  lemma DevPrefixHasSlash(part: string)
    ensures HasPrefix(part, "/dev") ==> '/' in part
  {
    if HasPrefix(part, "/dev") { assert part[0] == "/dev"[0]; }
  }

  /** A kernel name and its /dev path name the same device, and so give the same answer. */
  lemma ShortNameAndPathAgree(short: string)
    requires '/' !in short
    ensures DevicePath(short) == DevicePath("/dev/" + short) == "/dev/" + short
  {
    DevPrefixHasSlash(short);
  }

  /** Whatever begins with "/dev" is taken as a path, everything else as a name. */
  lemma OnlyNamesAreCompleted(part: string)
    ensures DevicePath(part) == if |part| >= 4 && part[..4] == "/dev" then part else "/dev/" + part
  {
  }
}
