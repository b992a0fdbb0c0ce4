/** The udev runtime database reader: the parsing loop of `udevInfo` in pkg/block/block_device.go. */
module UdevDatabase {
  import opened Strings

  type Properties = map<string, string>

  function Record(line: string, known: Properties): Properties {
    if HasPrefix(line, "E:") then
      match Cut(line[2..], '=')
      case Some(pair) => known[pair.0 := pair.1]
      case None => known
    else
      known
  }

  function RecordAll(lines: seq<string>): Properties {
    if lines == [] then map[] else Record(lines[|lines| - 1], RecordAll(lines[..|lines| - 1]))
  }

  method ReadUdevInfo(data: string) returns (info: Properties)
    ensures info == RecordAll(Split(data, '\n'))
  {
    info := map[];
    var lines := Split(data, '\n');
    var i := 0;
    while i < |lines|
      invariant 0 <= i <= |lines|
      invariant info == RecordAll(lines[..i])
    {
      assert lines[..i + 1][..i] == lines[..i];
      if HasPrefix(lines[i], "E:") {
        var pair := Cut(lines[i][2..], '=');
        if pair.Some? {
          info := info[pair.value.0 := pair.value.1];
        }
      }
      i := i + 1;
    }
    assert lines[..i] == lines;
  }

  datatype Row = Property(key: string, value: string) | Other(line: string)

  predicate ValidRow(row: Row) {
    match row
    case Property(key, value) => '=' !in key && '\n' !in key && '\n' !in value
    case Other(line) => '\n' !in line && ("E:" <= line ==> '=' !in line)
  }

  function PrintRow(row: Row): string {
    match row
    case Property(key, value) => "E:" + key + "=" + value
    case Other(line) => line
  }

  function PrintRows(rows: seq<Row>): seq<string> {
    seq(|rows|, i requires 0 <= i < |rows| => PrintRow(rows[i]))
  }

  /** The database file: one row a line. */
  function PrintDatabase(rows: seq<Row>): string { Join(PrintRows(rows), '\n') }

  /** Row `i` holds the last value written for `key`. */
  predicate IsLast(rows: seq<Row>, key: string, i: int) {
    && 0 <= i < |rows| && rows[i].Property? && rows[i].key == key
    && forall j | i < j < |rows| :: rows[j].Property? ==> rows[j].key != key
  }

  lemma RecordPrinted(row: Row, known: Properties)
    requires ValidRow(row)
    ensures Record(PrintRow(row), known) == if row.Property? then known[row.key := row.value] else known
  {
    if row.Property? {
      assert PrintRow(row)[2..] == row.key + ['='] + row.value;
      CutAtFirst(row.key, row.value, '=');
    } else if "E:" <= row.line {
      NoCut(row.line[2..], '=');
    }
  }

  lemma {:induction false} LastValueWins(rows: seq<Row>, key: string)
    requires forall i | 0 <= i < |rows| :: ValidRow(rows[i])
    ensures key in RecordAll(PrintRows(rows)) <==> exists i :: IsLast(rows, key, i)
    ensures forall i | IsLast(rows, key, i) ::
              key in RecordAll(PrintRows(rows)) && RecordAll(PrintRows(rows))[key] == rows[i].value
  {
    if rows != [] {
      var n := |rows| - 1;
      var before := rows[..n];
      LastValueWins(before, key);
      assert PrintRows(rows)[..n] == PrintRows(before);
      RecordPrinted(rows[n], RecordAll(PrintRows(before)));
      if rows[n].Property? && rows[n].key == key {
        assert IsLast(rows, key, n);
      } else {
        forall i ensures IsLast(rows, key, i) <==> IsLast(before, key, i) {
          if IsLast(before, key, i) {
            forall j | i < j < |rows| ensures rows[j].Property? ==> rows[j].key != key {
              if j < n { assert before[j] == rows[j]; }
            }
          }
          if IsLast(rows, key, i) {
            assert forall j | i < j < n :: before[j] == rows[j];
          }
        }
      }
    }
  }

  /** Parsing a printed database gives each key its last value and no other key. */
  lemma DatabaseRoundTrip(rows: seq<Row>, key: string)
    requires rows != []
    requires forall i | 0 <= i < |rows| :: ValidRow(rows[i])
    ensures var info := RecordAll(Split(PrintDatabase(rows), '\n'));
            && (key in info <==> exists i :: IsLast(rows, key, i))
            && forall i | IsLast(rows, key, i) :: key in info && info[key] == rows[i].value
  {
    SplitJoin(PrintRows(rows), '\n');
    LastValueWins(rows, key);
  }
}
