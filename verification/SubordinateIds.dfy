/** The subordinate ID files of the rehearsal engine: checking them, and adding blocks to them. */
module SubordinateIds {
  import opened Common
  import opened Text

  const ID_END: nat := 0x1_0000_0000
  const BLOCK: nat := 65536
  const LOWEST: nat := 1048576

  datatype Row = Row(name: string, start: nat, count: nat) {
    function End(): nat {
      start + count
    }

    predicate Holds(id: nat) {
      start <= id < End()
    }
  }

  datatype Line = Skipped | Malformed | Entry(row: Row)

  datatype Error = InvalidFile | UnsafeRange | Overlapping | NoneLeft | Unsupported | CommandFailed

  predicate IsName(s: string) {
    s != "" && forall i :: 0 <= i < |s| ==>
      'a' <= s[i] <= 'z' || 'A' <= s[i] <= 'Z' || IsDigit(s[i]) || s[i] == '_' || s[i] == '-'
  }

  function Read(line: string): Line {
    var text := StripLeft(line);
    if Blank(line) || (text != "" && text[0] == '#') then Skipped
    else
      var parts := Split(line, ':');
      if |parts| != 3 || !IsName(parts[0]) || !IsDigits(parts[1]) || !IsDigits(parts[2]) then Malformed
      else Entry(Row(parts[0], Value(parts[1]), Value(parts[2])))
  }

  /** A line without content: white space only, or a comment. */
  predicate Ignorable(line: string) {
    || (forall i :: 0 <= i < |line| ==> IsSpace(line[i]))
    || exists k :: 0 <= k < |line| && line[k] == '#' && forall i :: 0 <= i < k ==> IsSpace(line[i])
  }

  /** Letters, digits, underscores and dashes. */
  predicate Named(s: string) {
    && s != ""
    && forall i :: 0 <= i < |s| ==>
         || 'A' <= s[i] <= 'Z' || 'a' <= s[i] <= 'z' || '0' <= s[i] <= '9' || s[i] == '_' || s[i] == '-'
  }

  /** The line is the row in writing: its name and two decimal numbers, with colons between. */
  predicate Writes(line: string, row: Row, start: string, count: string) {
    && line == row.name + ":" + start + ":" + count
    && Named(row.name) && IsDigits(start) && IsDigits(count) && Value(start) == row.start && Value(count) == row.count
  }

  ghost predicate InWriting(line: string, row: Row) {
    exists a, b :: Writes(line, row, a, b)
  }

  lemma {:induction false} StripLeftTrims(s: string) returns (gap: string)
    ensures s == gap + StripLeft(s) && Blank(gap)
    ensures StripLeft(s) != "" ==> !IsSpace(StripLeft(s)[0])
  {
    gap := "";
    if s != "" && IsSpace(s[0]) {
      var more := StripLeftTrims(s[1..]);
      gap := [s[0]] + more;
      assert s == [s[0]] + s[1..];
    }
  }

  lemma IgnorableIff(line: string)
    ensures Ignorable(line) <==> Blank(line) || (StripLeft(line) != "" && StripLeft(line)[0] == '#')
  {
    var gap := StripLeftTrims(line);
    var text := StripLeft(line);
    if text != "" {
      assert line[|gap|] == text[0];
      assert forall i :: 0 <= i < |gap| ==> line[i] == gap[i];
    }
  }

  lemma NamedIff(s: string)
    ensures IsName(s) <==> Named(s)
  {
  }

  /** How a line is read: it is skipped, or it is one row in writing, or it is malformed. */
  lemma LineIff(line: string, row: Row)
    ensures Read(line).Skipped? <==> Ignorable(line)
    ensures Read(line) == Entry(row) <==> InWriting(line, row)
  {
    IgnorableIff(line);
    if Read(line) == Entry(row) {
      var parts := Split(line, ':');
      SplitGlues(line, ':');
      ThreeGlued(parts, ':');
      NamedIff(parts[0]);
      assert Writes(line, row, parts[1], parts[2]);
    }
    if a, b :| Writes(line, row, a, b) {
      WrittenIsRead(line, row, a, b);
    }
  }

  lemma ThreeGlued(parts: seq<string>, c: char)
    requires |parts| == 3
    ensures Glued(parts, c) == parts[0] + [c] + parts[1] + [c] + parts[2]
  {
    assert parts[1..][1..] == [parts[2]];
    assert Glued(parts[1..], c) == parts[1] + [c] + parts[2];
    assert parts[0] + [c] + (parts[1] + [c] + parts[2]) == parts[0] + [c] + parts[1] + [c] + parts[2];
  }

  lemma WrittenIsRead(line: string, row: Row, a: string, b: string)
    requires Writes(line, row, a, b)
    ensures Read(line) == Entry(row)
  {
    assert line[0] == row.name[0] && !IsSpace(line[0]) && line[0] != '#';
    assert StripLeft(line) == line && !Blank(line);
    hide StripLeft, IsSpace, Blank;
    NamedIff(row.name);
    assert line == row.name + [':'] + (a + [':'] + b);
    SplitFirst(row.name, ':', a + [':'] + b);
    SplitFirst(a, ':', b);
    SplitWhole(b, ':');
  }

  /** The line that grants a row. */
  function Written(row: Row): string {
    row.name + ":" + Decimal(row.start) + ":" + Decimal(row.count)
  }

  predicate Safe(row: Row) {
    row.start >= BLOCK && row.count >= 1 && row.End() <= ID_END
  }

  /** The rows of a file up to its first faulty line. */
  function Rows(lines: seq<string>): Result<seq<Row>, Error> {
    if lines == [] then Ok([])
    else
      var front := Rows(lines[..|lines| - 1]);
      if front.Err? then front
      else
        match Read(lines[|lines| - 1])
        case Skipped => front
        case Malformed => Err(InvalidFile)
        case Entry(row) => if Safe(row) then Ok(front.value + [row]) else Err(UnsafeRange)
  }

  /** A stable sort by first ID. */
  function Insert(rows: seq<Row>, row: Row): seq<Row> {
    if rows == [] || rows[|rows| - 1].start <= row.start then rows + [row]
    else Insert(rows[..|rows| - 1], row) + [rows[|rows| - 1]]
  }

  function Sort(rows: seq<Row>): seq<Row> {
    if rows == [] then [] else Insert(Sort(rows[..|rows| - 1]), rows[|rows| - 1])
  }

  predicate Stepwise(rows: seq<Row>) {
    forall i :: 0 <= i < |rows| - 1 ==> rows[i].End() <= rows[i + 1].start
  }

  function Checked(lines: seq<string>): Result<seq<Row>, Error> {
    var rows := Rows(lines);
    if rows.Ok? && !Stepwise(Sort(rows.value)) then Err(Overlapping) else rows
  }

  method Subids(lines: seq<string>) returns (result: Result<seq<Row>, Error>)
    ensures result == Checked(lines)
  {
    var rows: seq<Row> := [];
    for n := 0 to |lines|
      invariant Rows(lines[..n]) == Ok(rows)
    {
      assert lines[..n + 1][..n] == lines[..n];
      match Read(lines[n]) {
        case Skipped =>
        case Malformed =>
          FaultStays(lines, n + 1);
          return Err(InvalidFile);
        case Entry(row) =>
          if row.start < BLOCK || row.count < 1 || row.End() > ID_END {
            FaultStays(lines, n + 1);
            return Err(UnsafeRange);
          }
          rows := rows + [row];
      }
    }
    assert lines[..|lines|] == lines;
    var ordered := Sort(rows);
    var i := 0;
    while i + 1 < |ordered|
      invariant forall k :: 0 <= k < i && k + 1 < |ordered| ==> ordered[k].End() <= ordered[k + 1].start
    {
      if ordered[i].End() > ordered[i + 1].start {
        return Err(Overlapping);
      }
      i := i + 1;
    }
    return Ok(rows);
  }

  lemma {:induction false} FaultStays(lines: seq<string>, n: nat)
    requires n <= |lines| && Rows(lines[..n]).Err?
    ensures Rows(lines) == Rows(lines[..n])
    decreases |lines|
  {
    if n == |lines| {
      assert lines[..n] == lines;
    } else {
      var front := lines[..|lines| - 1];
      assert front[..n] == lines[..n];
      FaultStays(front, n);
    }
  }

  // ---- What an accepted file is ----

  predicate Apart(a: Row, b: Row) {
    a.End() <= b.start || b.End() <= a.start
  }

  predicate PairwiseApart(rows: seq<Row>) {
    forall i, j :: 0 <= i < j < |rows| ==> Apart(rows[i], rows[j])
  }

  lemma PairwiseApartNext(rows: seq<Row>, row: Row)
    ensures PairwiseApart(rows + [row]) <==> PairwiseApart(rows) && forall x :: x in rows ==> Apart(x, row)
  {
    var all := rows + [row];
    assert forall i :: 0 <= i < |rows| ==> all[i] == rows[i];
    if PairwiseApart(all) {
      forall x | x in rows
        ensures Apart(x, row)
      {
        var i :| 0 <= i < |rows| && rows[i] == x;
        assert Apart(all[i], all[|rows|]);
      }
    }
  }

  lemma {:induction false} InsertHolds(rows: seq<Row>, row: Row)
    ensures forall x :: x in Insert(rows, row) <==> x in rows || x == row
  {
    if !(rows == [] || rows[|rows| - 1].start <= row.start) {
      var n := |rows| - 1;
      InsertHolds(rows[..n], row);
      assert rows == rows[..n] + [rows[n]];
    }
  }

  lemma {:induction false} InsertApart(rows: seq<Row>, row: Row)
    ensures PairwiseApart(Insert(rows, row)) <==> PairwiseApart(rows + [row])
  {
    if !(rows == [] || rows[|rows| - 1].start <= row.start) {
      hide PairwiseApart;
      var n := |rows| - 1;
      var front, last := rows[..n], rows[n];
      InsertApart(front, row);
      InsertHolds(front, row);
      assert rows == front + [last];
      PairwiseApartNext(Insert(front, row), last);
      PairwiseApartNext(front, last);
      PairwiseApartNext(front, row);
      PairwiseApartNext(rows, row);
      assert forall x :: x in rows <==> x in front || x == last;
      assert Apart(last, row) <==> Apart(row, last);
    }
  }

  predicate Sorted(rows: seq<Row>) {
    forall i, j :: 0 <= i < j < |rows| ==> rows[i].start <= rows[j].start
  }

  lemma SortedNext(rows: seq<Row>, row: Row)
    requires Sorted(rows) && forall x :: x in rows ==> x.start <= row.start
    ensures Sorted(rows + [row])
  {
    assert forall i :: 0 <= i < |rows| ==> rows[i] in rows;
  }

  lemma LastIsHighest(rows: seq<Row>)
    requires Sorted(rows) && rows != []
    ensures Sorted(rows[..|rows| - 1]) && forall x :: x in rows ==> x.start <= rows[|rows| - 1].start
  {
  }

  lemma {:induction false} InsertSorted(rows: seq<Row>, row: Row)
    requires Sorted(rows)
    ensures Sorted(Insert(rows, row))
  {
    hide Sorted;
    if rows == [] {
      SortedNext(rows, row) by { NothingSorted(); }
    } else {
      var n := |rows| - 1;
      LastIsHighest(rows);
      if rows[n].start <= row.start {
        SortedNext(rows, row);
      } else {
        InsertSorted(rows[..n], row);
        InsertHolds(rows[..n], row);
        SortedNext(Insert(rows[..n], row), rows[n]);
      }
    }
  }

  lemma NothingSorted()
    ensures Sorted([])
  {
  }

  lemma {:induction false} SortHolds(rows: seq<Row>)
    ensures Sorted(Sort(rows)) && forall x :: x in Sort(rows) <==> x in rows
    ensures PairwiseApart(Sort(rows)) <==> PairwiseApart(rows)
  {
    if rows != [] {
      hide PairwiseApart, Sorted;
      var n := |rows| - 1;
      var front, last := rows[..n], rows[n];
      SortHolds(front);
      InsertSorted(Sort(front), last);
      InsertHolds(Sort(front), last);
      InsertApart(Sort(front), last);
      PairwiseApartNext(Sort(front), last);
      PairwiseApartNext(front, last);
      assert rows == front + [last];
    } else {
      assert Sort(rows) == [];
    }
  }

  /** For rows in order, looking at neighbours is enough. */
  lemma {:induction false} NeighboursAreEnough(rows: seq<Row>)
    requires Sorted(rows) && forall x :: x in rows ==> x.count >= 1
    ensures Stepwise(rows) <==> PairwiseApart(rows)
  {
    if Stepwise(rows) {
      forall i, j | 0 <= i < j < |rows|
        ensures Apart(rows[i], rows[j])
      {
        assert rows[i].End() <= rows[i + 1].start;
        assert i + 1 == j || rows[i + 1].start <= rows[j].start;
      }
    }
    if PairwiseApart(rows) {
      forall i | 0 <= i < |rows| - 1
        ensures rows[i].End() <= rows[i + 1].start
      {
        assert rows[i + 1] in rows && Apart(rows[i], rows[i + 1]);
      }
    }
  }

  /** The entries of a file, in order. */
  function Listed(lines: seq<string>): seq<Row> {
    if lines == [] then []
    else
      var line := Read(lines[|lines| - 1]);
      Listed(lines[..|lines| - 1]) + if line.Entry? then [line.row] else []
  }

  predicate SoundLine(line: string) {
    !Read(line).Malformed? && (Read(line).Entry? ==> Safe(Read(line).row))
  }

  /** The line is skipped, or grants a range above 65535 that ends by 2^32. */
  ghost predicate Grants(line: string) {
    || Ignorable(line)
    || exists row :: InWriting(line, row) && row.start >= 65536 && row.count >= 1 && row.start + row.count <= 4294967296
  }

  lemma SoundLineIff(line: string)
    ensures SoundLine(line) <==> Grants(line)
  {
    hide InWriting, Ignorable, Read;
    LineIff(line, Row("", 0, 0));
    forall row
      ensures Read(line) == Entry(row) <==> InWriting(line, row)
    {
      LineIff(line, row);
    }
    if Read(line).Entry? {
      assert InWriting(line, Read(line).row);
    }
  }

  /** The first line that is not sound decides: it cannot be read, or its range is not safe. */
  lemma FirstFault(lines: seq<string>, n: nat)
    requires n < |lines| && !Grants(lines[n]) && forall i :: 0 <= i < n ==> Grants(lines[i])
    ensures Checked(lines) == Err(if exists row :: InWriting(lines[n], row) then UnsafeRange else InvalidFile)
  {
    hide Grants, InWriting, Ignorable, Read;
    SoundLineIff(lines[n]);
    forall i | 0 <= i < n
      ensures SoundLine(lines[i])
    {
      SoundLineIff(lines[i]);
    }
    forall row
      ensures Read(lines[n]) == Entry(row) <==> InWriting(lines[n], row)
    {
      LineIff(lines[n], row);
    }
    if Read(lines[n]).Entry? {
      assert InWriting(lines[n], Read(lines[n]).row);
    }
    RowsAreListed(lines[..n]);
    assert lines[..n + 1][..n] == lines[..n];
    FaultStays(lines, n + 1);
  }

  ghost predicate NoIdTwice(rows: seq<Row>) {
    forall i, j, id :: 0 <= i < j < |rows| && rows[i].Holds(id) ==> !rows[j].Holds(id)
  }

  lemma {:induction false} RowsAreListed(lines: seq<string>)
    ensures Rows(lines).Ok? <==> forall i :: 0 <= i < |lines| ==> SoundLine(lines[i])
    ensures Rows(lines).Ok? ==> Rows(lines).value == Listed(lines) && forall x :: x in Listed(lines) ==> Safe(x)
  {
    if lines != [] {
      var n := |lines| - 1;
      RowsAreListed(lines[..n]);
      assert forall i :: 0 <= i < n ==> lines[..n][i] == lines[i];
      assert SoundLine(lines[n]) || !SoundLine(lines[n]);
    }
  }

  lemma ApartMeansNoShare(rows: seq<Row>)
    requires forall x :: x in rows ==> x.count >= 1
    ensures PairwiseApart(rows) <==> NoIdTwice(rows)
  {
    if NoIdTwice(rows) {
      forall i, j | 0 <= i < j < |rows|
        ensures Apart(rows[i], rows[j])
      {
        var id := Max(rows[i].start, rows[j].start);
        assert rows[i] in rows && rows[j] in rows;
        assert rows[i].Holds(id) ==> !rows[j].Holds(id);
      }
    }
  }

  /** A file is accepted exactly when every line is blank, a comment or a safe range, and no ID is given out twice. */
  lemma AcceptedIff(lines: seq<string>)
    ensures Checked(lines).Ok? <==> (forall i :: 0 <= i < |lines| ==> SoundLine(lines[i])) && NoIdTwice(Listed(lines))
    ensures Checked(lines).Ok? ==> Checked(lines).value == Listed(lines)
  {
    hide SoundLine, NoIdTwice, PairwiseApart, Stepwise, Sorted, Sort;
    RowsAreListed(lines);
    if Rows(lines).Ok? {
      var rows := Listed(lines);
      SortHolds(rows);
      NeighboursAreEnough(Sort(rows));
      ApartMeansNoShare(rows);
    }
  }

  // ---- The next free block ----

  function Highest(rows: seq<Row>): nat {
    if rows == [] then LOWEST else Max(Highest(rows[..|rows| - 1]), rows[|rows| - 1].End())
  }

  function Align(id: nat): nat {
    (id + BLOCK - 1) / BLOCK * BLOCK
  }

  function NextRange(uids: seq<Row>, gids: seq<Row>): Result<nat, Error> {
    var start := Align(Highest(uids + gids));
    if start + BLOCK > ID_END then Err(NoneLeft) else Ok(start)
  }

  /** An aligned block above everything that is given out. */
  predicate FreeBlock(start: nat, uids: seq<Row>, gids: seq<Row>) {
    && start % 65536 == 0 && 1048576 <= start && start + 65536 <= 4294967296
    && forall x :: x in uids + gids ==> x.End() <= start
  }

  lemma AlignIsLeast(id: nat)
    ensures Align(id) >= id && Align(id) % BLOCK == 0
    ensures forall s: nat :: s >= id && s % BLOCK == 0 ==> s >= Align(id)
  {
    var q := (id + BLOCK - 1) / BLOCK;
    forall s: nat | s >= id && s % BLOCK == 0
      ensures s >= Align(id)
    {
      assert s / BLOCK >= q;
    }
  }

  lemma {:induction false} HighestBounds(rows: seq<Row>)
    ensures Highest(rows) >= LOWEST && forall x :: x in rows ==> x.End() <= Highest(rows)
    ensures Highest(rows) == LOWEST || exists x :: x in rows && x.End() == Highest(rows)
  {
    if rows != [] {
      var n := |rows| - 1;
      HighestBounds(rows[..n]);
      assert rows == rows[..n] + [rows[n]];
      assert rows[n] in rows;
    }
  }

  /** The block chosen is the lowest free one, and none is chosen only when there is none. */
  lemma NextRangeIsLowest(uids: seq<Row>, gids: seq<Row>)
    ensures NextRange(uids, gids).Ok? <==> exists s: nat :: FreeBlock(s, uids, gids)
    ensures NextRange(uids, gids).Ok? ==>
      && FreeBlock(NextRange(uids, gids).value, uids, gids)
      && forall s: nat :: FreeBlock(s, uids, gids) ==> NextRange(uids, gids).value <= s
  {
    hide Align, Highest;
    var all := uids + gids;
    HighestBounds(all);
    AlignIsLeast(Highest(all));
    forall s: nat | FreeBlock(s, uids, gids)
      ensures Align(Highest(all)) <= s
    {
      if x :| x in all && x.End() == Highest(all) {
        assert x in uids || x in gids;
      }
    }
    if NextRange(uids, gids).Ok? {
      assert forall x :: x in uids || x in gids ==> x in all;
      assert FreeBlock(NextRange(uids, gids).value, uids, gids);
    }
  }

  // ---- Granting a block ----

  lemma WrittenReadsBack(row: Row)
    requires IsName(row.name)
    ensures Read(Written(row)) == Entry(row)
  {
    var line := Written(row);
    var a, b := Decimal(row.start), Decimal(row.count);
    assert line == row.name + [':'] + (a + [':'] + b);
    assert IsDigit(b[0]);
    SplitFirst(row.name, ':', a + [':'] + b);
    SplitFirst(a, ':', b);
    SplitWhole(b, ':');
    DecimalValue(row.start);
    DecimalValue(row.count);
    assert line[0] == row.name[0] && !IsSpace(line[0]);
  }

  /** The rows of one account. */
  function Of(user: string, rows: seq<Row>): seq<Row> {
    if rows == [] then []
    else
      var row := rows[|rows| - 1];
      Of(user, rows[..|rows| - 1]) + if row.name == user then [row] else []
  }

  predicate Usable(own: seq<Row>) {
    |own| <= 1 && forall x :: x in own ==> x.count >= BLOCK
  }

  function Granted(lines: seq<string>, own: seq<Row>, row: Row): seq<string> {
    if own == [] then lines + [Written(row)] else lines
  }

  /** Both files after giving the account one block in each, where it has none. */
  function Installed(uid: seq<string>, gid: seq<string>, user: string): Result<(seq<string>, seq<string>), Error> {
    var uids, gids := Checked(uid), Checked(gid);
    if uids.Err? then Err(uids.error)
    else if gids.Err? then Err(gids.error)
    else
      var ownUids, ownGids := Of(user, uids.value), Of(user, gids.value);
      if !Usable(ownUids) || !Usable(ownGids) then Err(Unsupported)
      else
        var start := NextRange(uids.value, gids.value);
        if start.Err? then Err(start.error)
        else
          var row := Row(user, start.value, BLOCK);
          Ok((Granted(uid, ownUids, row), Granted(gid, ownGids, row)))
  }

  /** Whether the command that extends each file succeeds, should it be called. */
  datatype Commands = Commands(uids: bool, gids: bool)

  predicate Lacks(user: string, lines: seq<string>) {
    Checked(lines).Ok? && Of(user, Checked(lines).value) == []
  }

  /** What an installation leaves in both files, and why it stopped; the file of the user IDs comes first. */
  function Tried(uid: seq<string>, gid: seq<string>, user: string, works: Commands): ((seq<string>, seq<string>), Option<Error>) {
    var whole := Installed(uid, gid, user);
    if whole.Err? then ((uid, gid), Some(whole.error))
    else if Lacks(user, uid) && !works.uids then ((uid, gid), Some(CommandFailed))
    else if Lacks(user, gid) && !works.gids then ((whole.value.0, gid), Some(CommandFailed))
    else (whole.value, None)
  }

  lemma {:induction false} ListedNext(lines: seq<string>, row: Row)
    requires IsName(row.name)
    ensures Listed(lines + [Written(row)]) == Listed(lines) + [row]
  {
    hide Written;
    WrittenReadsBack(row);
    assert (lines + [Written(row)])[..|lines|] == lines;
  }

  /** A block above everything keeps a file acceptable. */
  lemma BlockFits(lines: seq<string>, row: Row)
    requires Checked(lines).Ok? && IsName(row.name) && Safe(row)
    requires forall x :: x in Checked(lines).value ==> x.End() <= row.start
    ensures Checked(lines + [Written(row)]) == Ok(Checked(lines).value + [row])
  {
    hide Written, Checked, NoIdTwice, Listed;
    var more := lines + [Written(row)];
    AcceptedIff(lines);
    AcceptedIff(more);
    ListedNext(lines, row);
    WrittenReadsBack(row);
    forall i | 0 <= i < |more|
      ensures SoundLine(more[i])
    {
      assert i < |lines| ==> more[i] == lines[i];
    }
    NoIdTwiceNext(Listed(lines), row);
  }

  lemma NoIdTwiceNext(rows: seq<Row>, row: Row)
    requires NoIdTwice(rows) && forall x :: x in rows ==> x.End() <= row.start
    ensures NoIdTwice(rows + [row])
  {
    var all := rows + [row];
    forall i, j, id | 0 <= i < j < |all| && all[i].Holds(id)
      ensures !all[j].Holds(id)
    {
      assert all[i] == rows[i] && rows[i] in rows;
      assert j < |rows| ==> all[j] == rows[j];
    }
  }

  lemma OfNext(user: string, rows: seq<Row>, row: Row)
    ensures Of(user, rows + [row]) == Of(user, rows) + if row.name == user then [row] else []
  {
    assert (rows + [row])[..|rows|] == rows;
  }

  predicate Owns(user: string, lines: seq<string>) {
    Checked(lines).Ok? && |Of(user, Checked(lines).value)| == 1 && Of(user, Checked(lines).value)[0].count >= 65536
  }

  /** After an installation both files are still accepted, keep every line, and give the account exactly one usable range. */
  lemma InstallationFits(uid: seq<string>, gid: seq<string>, user: string)
    requires IsName(user) && Installed(uid, gid, user).Ok?
    ensures
      var after := Installed(uid, gid, user).value;
      && uid <= after.0 && gid <= after.1
      && Owns(user, after.0) && Owns(user, after.1)
  {
    hide Checked, NextRange, FreeBlock, Written;
    var uids, gids := Checked(uid).value, Checked(gid).value;
    var start := NextRange(uids, gids).value;
    var row := Row(user, start, BLOCK);
    NextRangeIsLowest(uids, gids);
    FreeBlockFacts(start, uids, gids);
    GrantFits(uid, user, row);
    GrantFits(gid, user, row);
  }

  lemma FreeBlockFacts(start: nat, uids: seq<Row>, gids: seq<Row>)
    requires FreeBlock(start, uids, gids)
    ensures start >= BLOCK && start + BLOCK <= ID_END
    ensures forall x :: x in uids || x in gids ==> x.End() <= start
  {
  }

  lemma GrantFits(lines: seq<string>, user: string, row: Row)
    requires Checked(lines).Ok? && IsName(user) && row.name == user && Safe(row) && row.count == BLOCK
    requires Usable(Of(user, Checked(lines).value))
    requires forall x :: x in Checked(lines).value ==> x.End() <= row.start
    ensures lines <= Granted(lines, Of(user, Checked(lines).value), row)
    ensures Owns(user, Granted(lines, Of(user, Checked(lines).value), row))
  {
    hide Checked, Written;
    var rows := Checked(lines).value;
    if Of(user, rows) == [] {
      BlockFits(lines, row);
      OfNext(user, rows, row);
    } else {
      assert Of(user, rows)[0] in Of(user, rows);
    }
  }

  /** Installing again changes nothing, but is refused when no further block is free, although none is needed. */
  lemma ReinstallIff(uid: seq<string>, gid: seq<string>, user: string)
    requires Owns(user, uid) && Owns(user, gid)
    ensures
      var free := exists s: nat :: FreeBlock(s, Checked(uid).value, Checked(gid).value);
      Installed(uid, gid, user) == if free then Ok((uid, gid)) else Err(NoneLeft)
  {
    hide Checked, FreeBlock;
    NextRangeIsLowest(Checked(uid).value, Checked(gid).value);
  }

  /** Two files whose only range is the topmost block: nothing is missing, and a second installation is refused. */
  lemma ReinstallCanBeRefused(user: string)
    requires IsName(user)
    ensures
      var file := [Written(Row(user, ID_END - BLOCK, BLOCK))];
      Owns(user, file) && Installed(file, file, user) == Err(NoneLeft)
  {
    var row := Row(user, ID_END - BLOCK, BLOCK);
    var file := [Written(row)];
    OneRow(row);
    hide Written, Checked, Installed;
    OfNext(user, [], row);
    assert [] + [row] == [row];
    TopmostIsLast(row);
    ReinstallIff(file, file, user);
  }

  lemma OneRow(row: Row)
    requires IsName(row.name) && Safe(row)
    ensures Checked([Written(row)]) == Ok([row])
  {
    hide Written;
    NothingChecked();
    assert [] + [Written(row)] == [Written(row)] && [] + [row] == [row];
    BlockFits([], row);
  }

  lemma NothingChecked()
    ensures Checked([]) == Ok([])
  {
  }

  lemma TopmostIsLast(row: Row)
    requires row.End() == ID_END
    ensures forall s: nat :: !FreeBlock(s, [row], [row])
  {
    assert row in [row] + [row];
  }

  /** However an installation ends, both files stay accepted and keep every line. */
  lemma AttemptsKeepFiles(uid: seq<string>, gid: seq<string>, user: string, works: Commands)
    requires IsName(user) && Checked(uid).Ok? && Checked(gid).Ok?
    ensures
      var after := Tried(uid, gid, user, works).0;
      uid <= after.0 && gid <= after.1 && Checked(after.0).Ok? && Checked(after.1).Ok?
    ensures Tried(uid, gid, user, works).1.None? ==>
      var after := Tried(uid, gid, user, works).0;
      Owns(user, after.0) && Owns(user, after.1)
  {
    hide Checked, NextRange, FreeBlock, Written, Installed;
    if Installed(uid, gid, user).Ok? {
      InstallationFits(uid, gid, user);
    }
  }

  /** A command fails exactly where a file needs a range and the command for it does not work, the first file first;
      what is left is the whole installation but for the files that were not extended. */
  lemma TriedIff(uid: seq<string>, gid: seq<string>, user: string, works: Commands)
    requires Installed(uid, gid, user).Ok?
    ensures
      var (after, answer) := Tried(uid, gid, user, works);
      var first, second := Of(user, Checked(uid).value) == [], Of(user, Checked(gid).value) == [];
      && (answer == Some(CommandFailed) <==> (first && !works.uids) || (second && !works.gids))
      && (answer == None || answer == Some(CommandFailed))
      && after.0 == (if first && works.uids then Installed(uid, gid, user).value.0 else uid)
      && after.1 == (if second && works.gids && !(first && !works.uids) then Installed(uid, gid, user).value.1 else gid)
  {
    hide Checked, NextRange, Written, Usable;
  }

  /** Nothing is done, and no file changed, where the account has two ranges in a file or a small one. */
  lemma UnsupportedIff(uid: seq<string>, gid: seq<string>, user: string)
    requires Checked(uid).Ok? && Checked(gid).Ok?
    ensures
      var a, b := Of(user, Checked(uid).value), Of(user, Checked(gid).value);
      Installed(uid, gid, user) == Err(Unsupported) <==>
        |a| > 1 || |b| > 1 || exists x :: (x in a || x in b) && x.count < 65536
  {
    hide Checked, Written;
  }

  /** After an installation whose second command failed, another one gives the account the next block in the
      second file: the ranges of the two files differ.  It is refused when that block is the one too many. */
  lemma HalfInstalled(uid: seq<string>, gid: seq<string>, user: string)
    requires IsName(user) && Installed(uid, gid, user).Ok? && Lacks(user, uid) && Lacks(user, gid)
    ensures
      var start := NextRange(Checked(uid).value, Checked(gid).value).value;
      var first, second := Row(user, start, BLOCK), Row(user, start + BLOCK, BLOCK);
      var half := uid + [Written(first)];
      && Tried(uid, gid, user, Commands(true, false)) == ((half, gid), Some(CommandFailed))
      && Installed(half, gid, user)
         == if second.End() <= ID_END then Ok((half, gid + [Written(second)])) else Err(NoneLeft)
  {
    hide Checked, Written, Highest, Align, FreeBlock;
    var uids, gids := Checked(uid).value, Checked(gid).value;
    var start := NextRange(uids, gids).value;
    var row := Row(user, start, BLOCK);
    NextRangeIsLowest(uids, gids);
    FreeBlockFacts(start, uids, gids);
    BlockFits(uid, row);
    OfNext(user, uids, row);
    NextAfterOne(uids, gids, row);
  }

  lemma NextAfterOne(uids: seq<Row>, gids: seq<Row>, row: Row)
    requires row.start == Align(Highest(uids + gids)) && row.count == BLOCK
    ensures Align(Highest((uids + [row]) + gids)) == row.start + BLOCK
  {
    hide Highest, Align;
    AlignIsLeast(Highest(uids + gids));
    HighestJoin(uids, gids);
    HighestJoin(uids, [row]);
    HighestJoin(uids + [row], gids);
    HighestOfOne(row);
    HighestBounds(uids);
    AlignedStays(row.start, 1);
  }

  lemma HighestOfOne(row: Row)
    ensures Highest([row]) == Max(LOWEST, row.End())
  {
    assert Highest([]) == LOWEST;
    assert [row][..0] == [];
  }

  /** The two files on disk. */
  class IdFiles {
    var uid: seq<string>
    var gid: seq<string>

    constructor (uid: seq<string>, gid: seq<string>)
      ensures this.uid == uid && this.gid == gid
    {
      this.uid, this.gid := uid, gid;
    }

    /** Gives the account a block in each file, and checks both files again. */
    method Install(user: string, works: Commands) returns (result: Option<Error>)
      requires IsName(user)
      modifies this
      ensures ((uid, gid), result) == Tried(old(uid), old(gid), user, works)
      ensures result.Some? && result != Some(CommandFailed) ==> uid == old(uid) && gid == old(gid)
    {
      var uids := Subids(uid);
      if uids.Err? {
        return Some(uids.error);
      }
      var gids := Subids(gid);
      if gids.Err? {
        return Some(gids.error);
      }
      hide Checked, Written, NextRange;
      var ownUids, ownGids := Of(user, uids.value), Of(user, gids.value);
      if !Usable(ownUids) || !Usable(ownGids) {
        return Some(Unsupported);
      }
      var start := NextRange(uids.value, gids.value);
      if start.Err? {
        return Some(start.error);
      }
      if ownUids == [] {
        if !works.uids {
          return Some(CommandFailed);
        }
        uid := uid + [Written(Row(user, start.value, BLOCK))];
      }
      if ownGids == [] {
        if !works.gids {
          return Some(CommandFailed);
        }
        gid := gid + [Written(Row(user, start.value, BLOCK))];
      }
      InstallationFits(old(uid), old(gid), user);
      var again := Subids(uid);
      if again.Err? {
        assert false;
      }
      again := Subids(gid);
      if again.Err? {
        assert false;
      }
      return None;
    }
  }

  // ---- Any number of rounds ----

  /** One installation per account, in order, until one is refused. */
  function Rounds(uid: seq<string>, gid: seq<string>, users: seq<string>): Result<(seq<string>, seq<string>), Error> {
    if users == [] then Ok((uid, gid))
    else
      var before := Rounds(uid, gid, users[..|users| - 1]);
      if before.Err? then before else Installed(before.value.0, before.value.1, users[|users| - 1])
  }

  function Blocks(users: seq<string>, first: nat): seq<Row> {
    seq(|users|, k requires 0 <= k < |users| => Row(users[k], first + BLOCK * k, BLOCK))
  }

  /** Accounts that are named once each, and nowhere in the files. */
  predicate Fresh(users: seq<string>, rows: seq<Row>) {
    && (forall u :: u in users ==> IsName(u))
    && (forall i, j :: 0 <= i < j < |users| ==> users[i] != users[j])
    && forall x :: x in rows ==> x.name !in users
  }

  lemma {:induction false} OfNobody(user: string, rows: seq<Row>)
    requires forall x :: x in rows ==> x.name != user
    ensures Of(user, rows) == []
  {
    if rows != [] {
      OfNobody(user, rows[..|rows| - 1]);
    }
  }

  lemma {:induction false} HighestJoin(a: seq<Row>, b: seq<Row>)
    ensures Highest(a + b) == Max(Highest(a), Highest(b))
  {
    if b == [] {
      HighestBounds(a);
      assert a + b == a;
    } else {
      var n := |b| - 1;
      HighestJoin(a, b[..n]);
      assert (a + b)[..|a| + n] == a + b[..n];
    }
  }

  lemma {:induction false} HighestBlocks(users: seq<string>, first: nat)
    requires first >= LOWEST
    ensures Highest(Blocks(users, first)) == if users == [] then LOWEST else first + BLOCK * |users|
  {
    if users != [] {
      var n := |users| - 1;
      HighestBlocks(users[..n], first);
      assert Blocks(users, first)[..n] == Blocks(users[..n], first);
    }
  }

  /** The block offered after earlier rounds is the one after theirs. */
  lemma OfferedNext(uids: seq<Row>, gids: seq<Row>, users: seq<string>)
    ensures
      var first := Align(Highest(uids + gids));
      Align(Highest((uids + Blocks(users, first)) + (gids + Blocks(users, first)))) == first + BLOCK * |users|
  {
    hide Highest, Blocks, Align;
    var all := uids + gids;
    var first := Align(Highest(all));
    var more := Blocks(users, first);
    HighestBounds(all);
    AlignIsLeast(Highest(all));
    HighestJoin(uids, gids);
    HighestJoin(uids, more);
    HighestJoin(gids, more);
    HighestJoin(uids + more, gids + more);
    HighestBlocks(users, first);
    if users == [] {
      NothingOffered(uids, gids, first);
    } else {
      AlignedStays(first, |users|);
    }
  }

  lemma NothingOffered(uids: seq<Row>, gids: seq<Row>, first: nat)
    ensures uids + Blocks([], first) == uids && gids + Blocks([], first) == gids
  {
  }

  lemma AlignedStays(first: nat, n: nat)
    requires first % BLOCK == 0
    ensures Align(first + BLOCK * n) == first + BLOCK * n
  {
    var q := first / BLOCK;
    assert first + BLOCK * n == (q + n) * BLOCK;
  }

  /** Rounds for new accounts succeed exactly while the space lasts, and give out consecutive blocks,
      the same ones in both files, which stay accepted. */
  lemma {:induction false} RoundsGrantConsecutively(uid: seq<string>, gid: seq<string>, users: seq<string>)
    requires Checked(uid).Ok? && Checked(gid).Ok? && Fresh(users, Checked(uid).value + Checked(gid).value)
    ensures
      var first := Align(Highest(Checked(uid).value + Checked(gid).value));
      var after := Rounds(uid, gid, users);
      && (after.Ok? <==> users == [] || first + BLOCK * |users| <= ID_END)
      && (after.Err? ==> after.error == NoneLeft)
      && (after.Ok? ==>
           && Checked(after.value.0) == Ok(Checked(uid).value + Blocks(users, first))
           && Checked(after.value.1) == Ok(Checked(gid).value + Blocks(users, first)))
  {
    hide Checked, Written, Highest, Align, Installed, Blocks;
    var uids, gids := Checked(uid).value, Checked(gid).value;
    var first := Align(Highest(uids + gids));
    if users == [] {
      NoBlocks(first);
      assert uids + Blocks(users, first) == uids && gids + Blocks(users, first) == gids;
    } else {
      var n := |users| - 1;
      var front, user := users[..n], users[n];
      NotYetNamed(users, uids + gids, first);
      RoundsGrantConsecutively(uid, gid, front);
      var before := Rounds(uid, gid, front);
      if before.Ok? {
        NextRound(before.value.0, before.value.1, users, uids, gids);
      }
    }
  }

  /** The round after those that granted the blocks of all accounts but the last. */
  lemma NextRound(uid: seq<string>, gid: seq<string>, users: seq<string>, uids: seq<Row>, gids: seq<Row>)
    requires users != [] && Fresh(users, uids + gids)
    requires
      var more := Blocks(users[..|users| - 1], Align(Highest(uids + gids)));
      Checked(uid) == Ok(uids + more) && Checked(gid) == Ok(gids + more)
    ensures
      var first := Align(Highest(uids + gids));
      var after := Installed(uid, gid, users[|users| - 1]);
      && (after.Ok? <==> first + BLOCK * |users| <= ID_END)
      && (after.Err? ==> after.error == NoneLeft)
      && (after.Ok? ==>
           Checked(after.value.0) == Ok(uids + Blocks(users, first)) && Checked(after.value.1) == Ok(gids + Blocks(users, first)))
  {
    hide Checked, Written, Highest, Align, Installed, Fresh;
    var n := |users| - 1;
    var front, user, first := users[..n], users[n], Align(Highest(uids + gids));
    var more, row := Blocks(front, first), Row(user, first + BLOCK * n, BLOCK);
    OfferedNext(uids, gids, front);
    NotYetNamed(users, uids + gids, first);
    RoundGrants(uid, gid, user, uids + more, gids + more, first + BLOCK * n);
    assert Blocks(users, first) == more + [row];
    assert uids + Blocks(users, first) == uids + more + [row];
    assert gids + Blocks(users, first) == gids + more + [row];
  }

  lemma NoBlocks(first: nat)
    ensures Blocks([], first) == []
  {
  }

  lemma NotYetNamed(users: seq<string>, rows: seq<Row>, first: nat)
    requires Fresh(users, rows) && users != []
    ensures IsName(users[|users| - 1]) && Fresh(users[..|users| - 1], rows)
    ensures forall x :: x in rows || x in Blocks(users[..|users| - 1], first) ==> x.name != users[|users| - 1]
  {
    var n := |users| - 1;
    assert users[n] in users;
    forall x | x in Blocks(users[..n], first)
      ensures x.name != users[n]
    {
      var k :| 0 <= k < n && Blocks(users[..n], first)[k] == x;
      assert x.name == users[k];
    }
  }

  /** One round for an account that has no range yet. */
  lemma RoundGrants(uid: seq<string>, gid: seq<string>, user: string, uids: seq<Row>, gids: seq<Row>, start: nat)
    requires Checked(uid) == Ok(uids) && Checked(gid) == Ok(gids) && IsName(user)
    requires forall x :: x in uids + gids ==> x.name != user
    requires start == Align(Highest(uids + gids))
    ensures
      var after := Installed(uid, gid, user);
      var row := Row(user, start, BLOCK);
      && (after.Ok? <==> start + BLOCK <= ID_END)
      && (after.Err? ==> after.error == NoneLeft)
      && (after.Ok? ==> Checked(after.value.0) == Ok(uids + [row]) && Checked(after.value.1) == Ok(gids + [row]))
  {
    hide Checked, Written, Highest, Align, FreeBlock;
    OfNobody(user, uids);
    OfNobody(user, gids);
    if start + BLOCK <= ID_END {
      var row := Row(user, start, BLOCK);
      NextRangeIsLowest(uids, gids);
      FreeBlockFacts(start, uids, gids);
      BlockFits(uid, row);
      BlockFits(gid, row);
    }
  }
}
