/** The two documents of the operator as they are written, and when they can be read again. */
module Documents {
  import opened Sums
  import opened Text
  import opened Reservations
  import opened Allocator

  type Management = map<Owner, Approval>

  /** The reader of both documents refuses longer files. */
  const MAX_BYTES := 65536

  const HEAD := "{\"version\":1,\"databases\":{"
  const TAIL := "}}"

  predicate HexChar(c: char) {
    'a' <= c <= 'f' || '0' <= c <= '9'
  }

  predicate ValidToken(s: string) {
    |s| == 32 && forall i :: 0 <= i < |s| ==> HexChar(s[i])
  }

  /** A revision as the random source gives it. */
  type Token = s: string | ValidToken(s) witness "00000000000000000000000000000000"

  function Quoted(s: string): string {
    "\"" + s + "\""
  }

  function ModeName(m: Mode): string {
    if m.Adaptive? then "adaptive" else "fixed"
  }

  function ApprovalRow(id: Owner, a: Approval): string {
    Quoted(id) + ":{\"mode\":" + Quoted(ModeName(a.mode)) + ",\"maximumMiB\":" + Decimal(a.maximumMiB)
      + ",\"revision\":" + Quoted(a.revision) + "}"
  }

  function ReservationRow(id: Owner, mib: nat): string {
    Quoted(id) + ":" + Decimal(mib)
  }

  /** The texts of the rows of a document. */
  type Texts = map<Owner, string>

  function ApprovalTexts(m: Management): Texts {
    map k | k in m :: ApprovalRow(k, m[k])
  }

  function ReservationTexts(rows: Rows): Texts {
    map k | k in rows :: ReservationRow(k, if rows[k] >= 0 then rows[k] else 0)
  }

  function Lengths(texts: Texts): map<Owner, int> {
    map k | k in texts :: |texts[k]|
  }

  /** The length of the file that holds the rows. */
  ghost function FileSize(texts: Texts): int {
    |HEAD| + Sum(Lengths(texts)) + (if texts == map[] then 0 else |texts| - 1) + |TAIL|
  }

  // ---------------------------------------------------------------- the file itself

  /** The rows in the order they are written, with commas between. */
  function RowsText(texts: Texts, order: seq<Owner>): string
    requires forall k :: k in order ==> k in texts
  {
    if order == [] then ""
    else if |order| == 1 then texts[order[0]]
    else
      var last := order[|order| - 1];
      RowsText(texts, order[..|order| - 1]) + "," + texts[last]
  }

  function FileText(texts: Texts, order: seq<Owner>): string
    requires forall k :: k in order ==> k in texts
  {
    HEAD + RowsText(texts, order) + TAIL
  }

  ghost predicate Lists(texts: Texts, order: seq<Owner>) {
    && (forall k :: k in order <==> k in texts)
    && forall i, j :: 0 <= i < j < |order| ==> order[i] != order[j]
  }

  lemma RowsTextIs(texts: Texts, less: Texts, order: seq<Owner>)
    requires forall k :: k in order ==> k in less && k in texts && less[k] == texts[k]
    ensures RowsText(texts, order) == RowsText(less, order)
  {
    if |order| > 1 {
      RowsTextIs(texts, less, order[..|order| - 1]);
    }
  }

  /** Whatever the order of the rows, the file has the length computed for it. */
  lemma FileSizeIsText(texts: Texts, order: seq<Owner>)
    requires Lists(texts, order)
    ensures |FileText(texts, order)| == FileSize(texts)
  {
    RowsAreSized(texts, order);
  }

  lemma {:induction false} RowsAreSized(texts: Texts, order: seq<Owner>)
    requires Lists(texts, order)
    ensures |RowsText(texts, order)| + |HEAD| + |TAIL| == FileSize(texts)
  {
    hide FileSize, RowsText;
    if order == [] {
      assert texts == map[];
      NoRows(texts);
    } else {
      ListsFront(texts, order);
      RowsAreSized(texts - {order[|order| - 1]}, order[..|order| - 1]);
      hide Lists;
      LastRow(texts, order);
    }
  }

  lemma LastRow(texts: Texts, order: seq<Owner>)
    requires order != [] && (forall k :: k in order ==> k in texts)
    requires Lists(texts - {order[|order| - 1]}, order[..|order| - 1])
    requires
      var less := texts - {order[|order| - 1]};
      |RowsText(less, order[..|order| - 1])| + |HEAD| + |TAIL| == FileSize(less)
    ensures |RowsText(texts, order)| + |HEAD| + |TAIL| == FileSize(texts)
  {
    var last, front := order[|order| - 1], order[..|order| - 1];
    var less := texts - {last};
    OneRowMore(texts, less, order);
    hide FileSize, RowsText, Lists;
    FrontAgrees(texts, order);
    RowsTextIs(texts, less, front);
    FileSizePut(less, last, texts[last]);
    assert less[last := texts[last]] == texts;
    if less == map[] {
      NoRows(less);
    }
  }

  lemma FrontAgrees(texts: Texts, order: seq<Owner>)
    requires order != [] && (forall k :: k in order ==> k in texts)
    requires Lists(texts - {order[|order| - 1]}, order[..|order| - 1])
    ensures
      var less := texts - {order[|order| - 1]};
      forall k :: k in order[..|order| - 1] ==> k in less && k in texts && less[k] == texts[k]
  {
  }

  lemma NoRows(texts: Texts)
    requires texts == map[]
    ensures FileSize(texts) == |HEAD| + |TAIL| && RowsText(texts, []) == ""
  {
    assert Lengths(texts) == map[];
  }

  lemma ListsFront(texts: Texts, order: seq<Owner>)
    requires Lists(texts, order) && order != []
    ensures Lists(texts - {order[|order| - 1]}, order[..|order| - 1])
  {
    var n := |order| - 1;
    assert order == order[..n] + [order[n]];
  }

  lemma OneRowMore(texts: Texts, less: Texts, order: seq<Owner>)
    requires order != [] && (forall k :: k in order ==> k in texts)
    requires Lists(less, order[..|order| - 1])
    ensures
      var last := texts[order[|order| - 1]];
      |RowsText(texts, order)| == if less == map[] then |last| else |RowsText(texts, order[..|order| - 1])| + 1 + |last|
    ensures less == map[] ==> RowsText(texts, order[..|order| - 1]) == ""
  {
    var n := |order| - 1;
    assert less == map[] <==> order[..n] == [] by {
      if order[..n] != [] {
        assert order[..n][0] in order[..n];
      }
    }
  }

  /** One row set. */
  lemma FileSizePut(texts: Texts, k: Owner, row: string)
    ensures FileSize(texts[k := row]) ==
      if k in texts then FileSize(texts) + |row| - |texts[k]|
      else if texts == map[] then |HEAD| + |row| + |TAIL|
      else FileSize(texts) + 1 + |row|
  {
    LengthsPut(texts, k, row);
    hide Sum, Lengths;
    SumPut(Lengths(texts), k, |row|);
    TextCount(texts, k, row);
    if texts == map[] {
      NoLengths(texts);
    }
  }

  lemma NoLengths(texts: Texts)
    requires texts == map[]
    ensures Sum(Lengths(texts)) == 0
  {
    assert Lengths(texts) == map[];
  }

  lemma LengthsPut(texts: Texts, k: Owner, row: string)
    ensures Lengths(texts[k := row]) == Lengths(texts)[k := |row|]
    ensures k in texts <==> k in Lengths(texts)
    ensures k in texts ==> Lengths(texts)[k] == |texts[k]|
  {
  }

  lemma TextCount(texts: Texts, k: Owner, row: string)
    ensures |texts[k := row]| == if k in texts then |texts| else |texts| + 1
    ensures texts[k := row] != map[]
  {
    var more := texts[k := row];
    assert k in more;
    assert more.Keys == texts.Keys + {k};
    assert |more| == |more.Keys| && |texts| == |texts.Keys|;
    if k in texts {
      assert texts.Keys + {k} == texts.Keys;
    }
  }

  // ---------------------------------------------------------------- reading it again

  predicate ValidApproval(id: Owner, a: Approval) {
    ValidId(id) && 512 <= a.maximumMiB <= 524288 && ValidToken(a.revision)
  }

  /** The approvals read back as they are. */
  ghost predicate LoadsManagement(m: Management) {
    && |m| <= 1000 && (forall k :: k in m ==> ValidApproval(k, m[k]))
    && FileSize(ApprovalTexts(m)) <= MAX_BYTES
  }

  /** A well-named database, 512 MiB to 512 GiB, and a revision of 32 hexadecimal digits. */
  predicate Proper(id: Owner, a: Approval) {
    && |id| == 15 && (forall i :: 0 <= i < 15 ==> 'a' <= id[i] <= 'z' || '0' <= id[i] <= '9')
    && 512 <= a.maximumMiB <= 524288
    && |a.revision| == 32 && forall i :: 0 <= i < 32 ==> '0' <= a.revision[i] <= '9' || 'a' <= a.revision[i] <= 'f'
  }

  lemma ProperIff(id: Owner, a: Approval)
    ensures ValidApproval(id, a) <==> Proper(id, a)
  {
    ValidIdIff(id);
    ValidTokenIff(a.revision);
    hide ValidId, ValidToken;
  }

  /** The approvals are accepted exactly when there are at most a thousand, each for a well-named database with 512 MiB
      to 512 GiB and a revision of 32 hexadecimal digits, and their file, in any order, has at most 65536 bytes. */
  lemma LoadsManagementIff(m: Management, order: seq<Owner>)
    requires Lists(ApprovalTexts(m), order)
    ensures LoadsManagement(m) <==>
      && |m| <= 1000
      && (forall k :: k in m ==> Proper(k, m[k]))
      && |FileText(ApprovalTexts(m), order)| <= 65536
  {
    FileSizeIsText(ApprovalTexts(m), order);
    hide FileSize, FileText, ApprovalTexts, Lists, ValidApproval, Proper;
    forall k | k in m
      ensures ValidApproval(k, m[k]) <==> Proper(k, m[k])
    {
      ProperIff(k, m[k]);
    }
  }

  lemma ValidTokenIff(s: string)
    ensures ValidToken(s) <==> |s| == 32 && forall i :: 0 <= i < 32 ==> '0' <= s[i] <= '9' || 'a' <= s[i] <= 'f'
  {
  }

  lemma {:induction false} DecimalLength(n: nat)
    ensures 100 <= n < 1000 ==> |Decimal(n)| == 3
    ensures 1000 <= n < 10000 ==> |Decimal(n)| == 4
    ensures 10000 <= n < 100000 ==> |Decimal(n)| == 5
    ensures 100000 <= n < 1000000 ==> |Decimal(n)| == 6
  {
    if n >= 1000 {
      DecimalLength(n / 10);
    } else if n >= 100 {
      assert |Decimal(n / 10 / 10)| == 1;
      assert |Decimal(n / 10)| == 2;
    }
  }

  lemma ApprovalRowLength(id: Owner, a: Approval)
    requires ValidApproval(id, a)
    ensures |ApprovalRow(id, a)| == 87 + (if a.mode.Adaptive? then 10 else 7) + |Decimal(a.maximumMiB)|
    ensures 97 <= |ApprovalRow(id, a)| <= 103
  {
    DecimalLength(a.maximumMiB);
    hide Decimal;
  }

  lemma {:induction false} SumAtLeast(m: map<Owner, int>, c: nat)
    requires forall k :: k in m ==> m[k] >= c
    ensures Sum(m) >= c * |m|
    decreases |m|
  {
    if k :| k in m {
      SumTake(m, k);
      hide Sum;
      SumAtLeast(m - {k}, c);
      Fewer(m, k);
      assert c * |m| == c * (|m| - 1) + c;
    } else {
      assert m == map[];
    }
  }

  lemma {:induction false} SumAtMost(m: map<Owner, int>, c: nat)
    requires forall k :: k in m ==> m[k] <= c
    ensures Sum(m) <= c * |m|
    decreases |m|
  {
    if k :| k in m {
      SumTake(m, k);
      hide Sum;
      SumAtMost(m - {k}, c);
      Fewer(m, k);
      assert c * |m| == c * (|m| - 1) + c;
    } else {
      assert m == map[];
    }
  }

  lemma Fewer(m: map<Owner, int>, k: Owner)
    requires k in m
    ensures |m - {k}| == |m| - 1
  {
    assert (m - {k}).Keys == m.Keys - {k};
    assert |m - {k}| == |(m - {k}).Keys| && |m| == |m.Keys|;
  }

  lemma SameCount(m: Management)
    ensures |ApprovalTexts(m)| == |m| && (ApprovalTexts(m) == map[] <==> m == map[])
  {
    assert ApprovalTexts(m).Keys == m.Keys;
    assert |ApprovalTexts(m)| == |ApprovalTexts(m).Keys| && |m| == |m.Keys|;
    if m != map[] {
      var k :| k in m;
      assert k in ApprovalTexts(m);
    }
  }

  lemma ApprovalLengths(m: Management)
    requires forall k :: k in m ==> ValidApproval(k, m[k])
    ensures |Lengths(ApprovalTexts(m))| == |m|
    ensures forall k :: k in Lengths(ApprovalTexts(m)) ==> Lengths(ApprovalTexts(m))[k] >= 97
  {
    hide ApprovalRow, ValidApproval;
    var lengths := Lengths(ApprovalTexts(m));
    forall k | k in lengths
      ensures lengths[k] >= 97
    {
      ApprovalRowLength(k, m[k]);
    }
    assert lengths.Keys == m.Keys;
    assert |lengths| == |lengths.Keys| && |m| == |m.Keys|;
  }

  /** The limit on the length is met long before the limit on the rows: readable approvals name at most 668
      databases, and one more approval at most 669. */
  lemma ApprovalsAreFew(m: Management)
    requires forall k :: k in m ==> ValidApproval(k, m[k])
    requires FileSize(ApprovalTexts(m)) <= MAX_BYTES
    ensures |m| <= 668
  {
    hide ApprovalTexts, Lengths, Sum, ValidApproval;
    ApprovalLengths(m);
    SumAtLeast(Lengths(ApprovalTexts(m)), 97);
    SameCount(m);
  }

  /** The limit on the length never stops a reservation document that the limit on the rows lets through. */
  lemma ReservationsFit(rows: Rows)
    requires ValidRows(rows)
    ensures FileSize(ReservationTexts(rows)) <= MAX_BYTES
  {
    var lengths := Lengths(ReservationTexts(rows));
    forall k | k in lengths
      ensures lengths[k] <= 24
    {
      DecimalLength(rows[k]);
    }
    SumAtMost(lengths, 24);
    assert lengths.Keys == rows.Keys && ReservationTexts(rows).Keys == rows.Keys;
    assert |lengths| == |lengths.Keys| && |rows| == |rows.Keys| && |ReservationTexts(rows)| == |ReservationTexts(rows).Keys|;
  }

  /** One more approval keeps the approvals readable if and only if the file still fits. */
  lemma LoadsAfterApproval(m: Management, id: Owner, a: Approval)
    requires LoadsManagement(m) && ValidApproval(id, a)
    ensures LoadsManagement(m[id := a]) <==> FileSize(ApprovalTexts(m[id := a])) <= MAX_BYTES
    ensures |m[id := a]| <= 669
    ensures ApprovalTexts(m[id := a]) == ApprovalTexts(m)[id := ApprovalRow(id, a)]
  {
    hide FileSize, ValidApproval, ApprovalTexts;
    ApprovalsAreFew(m);
    ApprovalTextsPut(m, id, a);
    var more := m[id := a];
    if FileSize(ApprovalTexts(more)) <= MAX_BYTES {
      ApprovalsAreFew(more);
    }
  }

  lemma ApprovalTextsPut(m: Management, id: Owner, a: Approval)
    ensures ApprovalTexts(m[id := a]) == ApprovalTexts(m)[id := ApprovalRow(id, a)]
    ensures |m[id := a]| <= |m| + 1
  {
    hide ApprovalRow;
    var more := m[id := a];
    assert more.Keys == m.Keys + {id};
    assert |more| == |more.Keys| && |m| == |m.Keys|;
  }

  /** Whether the approvals can be read. */
  method ApprovalsLoad(m: Management) returns (ok: bool)
    ensures ok == LoadsManagement(m)
  {
    hide Sum, ApprovalRow;
    ok := |m| <= 1000;
    var rest, length := m, 0;
    while rest != map[]
      invariant forall k :: k in rest ==> k in m && rest[k] == m[k]
      invariant length + Sum(Lengths(ApprovalTexts(rest))) == Sum(Lengths(ApprovalTexts(m)))
      invariant ok <==> |m| <= 1000 && forall k :: k in m && k !in rest ==> ValidApproval(k, m[k])
      decreases |rest|
    {
      var k :| k in rest;
      TextsTake(rest, k);
      ok := ok && ValidApproval(k, m[k]);
      length := length + |ApprovalRow(k, m[k])|;
      rest := rest - {k};
    }
    NoApprovals();
    SameCount(m);
    ok := ok && |HEAD| + length + (if m == map[] then 0 else |m| - 1) + |TAIL| <= MAX_BYTES;
  }

  lemma TextsTake(m: Management, k: Owner)
    requires k in m
    ensures Sum(Lengths(ApprovalTexts(m))) == |ApprovalRow(k, m[k])| + Sum(Lengths(ApprovalTexts(m - {k})))
  {
    hide ApprovalRow;
    SumTake(Lengths(ApprovalTexts(m)), k);
    assert Lengths(ApprovalTexts(m)) - {k} == Lengths(ApprovalTexts(m - {k}));
  }

  lemma NoApprovals()
    ensures Sum(Lengths(ApprovalTexts(map[]))) == 0
  {
    assert Lengths(ApprovalTexts(map[])) == map[];
  }
}
