/**
 * The record store's operations on values: accepting a check number,
 * filling in missing identifiers, appending an identifier, and choosing
 * the rows of the spreadsheet export. The class in module Storage is
 * proved to change its fields exactly as these functions say.
 */
module StorageSpec {
  import opened Wrappers
  import opened Records

  // ---------------------------------------------------------------------------
  // Accepting a check number
  // ---------------------------------------------------------------------------

  datatype SaveResult = SaveResult(accepted: bool, checks: set<string>, data: UserData)

  /**
   * validateAndSaveCheck: a missing (null) or already accepted number is
   * refused and nothing changes; otherwise the number joins the set of
   * accepted numbers and gets an empty record unless it already has one.
   */
  function SaveCheck(checks: set<string>, data: UserData, number: Option<string>): (r: SaveResult)
    ensures r.accepted <==> number.Some? && number.value !in checks
    ensures !r.accepted ==> r.checks == checks && r.data == data
    ensures r.accepted ==> r.checks == checks + {number.value}
    ensures r.accepted ==> r.data.Keys == data.Keys + {number.value}
    ensures r.accepted && number.value !in data ==> r.data[number.value] == map[]
    ensures forall k :: k in data ==> k in r.data && r.data[k] == data[k]
  {
    if number.None? || number.value in checks then SaveResult(false, checks, data)
    else SaveResult(true, checks + {number.value}, PutIfAbsent(data, number.value, map[]))
  }

  /** Whatever the first call did, the same number is refused the second time. */
  lemma SecondSaveRefused(checks: set<string>, data: UserData, number: string)
    ensures var first := SaveCheck(checks, data, Some(number));
            !SaveCheck(first.checks, first.data, Some(number)).accepted
  {
  }

  // ---------------------------------------------------------------------------
  // Filling in missing identifiers
  // ---------------------------------------------------------------------------

  /**
   * assignRandomUUIDs: every complete record without a `uid` gets the
   * identifier `newUid(k)` drawn for its check number; all other records,
   * and every existing `uid`, stay as they are.
   */
  function AssignUids(data: UserData, newUid: string -> string): (r: UserData)
    ensures r.Keys == data.Keys
    ensures forall k :: k in data && Complete(data[k]) ==> UidKey in r[k]
    ensures forall k :: k in data && UidKey in data[k] ==> r[k] == data[k]
    ensures forall k :: k in data && !Complete(data[k]) ==> r[k] == data[k]
    ensures forall k :: k in data ==> r[k] - {UidKey} == data[k] - {UidKey}
    ensures forall k :: k in data ==> (UidKey in r[k] <==> UidKey in data[k] || Complete(data[k]))
  {
    map k | k in data ::
      if Complete(data[k]) && UidKey !in data[k] then data[k][UidKey := newUid(k)] else data[k]
  }

  /** A second run changes nothing, whatever identifiers it would draw. */
  lemma AssignUidsIdempotent(data: UserData, newUid1: string -> string, newUid2: string -> string)
    ensures AssignUids(AssignUids(data, newUid1), newUid2) == AssignUids(data, newUid1)
  {
  }

  // ---------------------------------------------------------------------------
  // Appending an identifier
  // ---------------------------------------------------------------------------

  /**
   * addUUID: create the record if absent, then set `uid` to `uid` when it
   * has none, else append `,uid` to the one it has.
   */
  function AddUid(data: UserData, k: string, uid: string): (r: UserData)
    ensures r.Keys == data.Keys + {k}
    ensures UidKey in r[k]
    ensures k in data && UidKey in data[k] ==> r[k][UidKey] == data[k][UidKey] + "," + uid
    ensures k !in data || UidKey !in data[k] ==> r[k][UidKey] == uid
    ensures r[k] - {UidKey} == GetOrDefault(data, k, map[]) - {UidKey}
    ensures forall k' :: k' in data && k' != k ==> r[k'] == data[k']
  {
    var rec := GetOrDefault(data, k, map[]);
    var joined := if UidKey in rec then rec[UidKey] + "," + uid else uid;
    data[k := rec[UidKey := joined]]
  }

  /** addUUID called once for each of `uids`, in order. */
  function AddUids(data: UserData, k: string, uids: seq<string>): UserData
  {
    if uids == [] then data else AddUid(AddUids(data, k, uids[..|uids| - 1]), k, uids[|uids| - 1])
  }

  /** The identifiers of `ids` separated by commas. */
  function JoinWithCommas(ids: seq<string>): string
    requires ids != []
  {
    if |ids| == 1 then ids[0] else JoinWithCommas(ids[..|ids| - 1]) + "," + ids[|ids| - 1]
  }

  /** The identifiers a record holds before any is appended. */
  function PriorUids(data: UserData, k: string): seq<string> {
    if k in data && UidKey in data[k] then [data[k][UidKey]] else []
  }

  /**
   * Appending identifiers one at a time leaves the record's `uid` holding
   * the earlier value and all new ones, comma-separated, in issuance
   * order; no other field and no other record changes.
   */
  lemma {:induction false} AddUidsJoins(data: UserData, k: string, uids: seq<string>)
    requires uids != []
    ensures var r := AddUids(data, k, uids);
            && r.Keys == data.Keys + {k}
            && UidKey in r[k]
            && r[k][UidKey] == JoinWithCommas(PriorUids(data, k) + uids)
            && r[k] - {UidKey} == GetOrDefault(data, k, map[]) - {UidKey}
            && forall k' :: k' in data && k' != k ==> r[k'] == data[k']
  {
    AddUidsFrame(data, k, uids);
    AddUidsValue(data, k, uids);
  }

  /** Appending identifiers touches only the `uid` field of record `k`. */
  lemma {:induction false} AddUidsFrame(data: UserData, k: string, uids: seq<string>)
    requires uids != []
    ensures var r := AddUids(data, k, uids);
            && r.Keys == data.Keys + {k}
            && r[k] - {UidKey} == GetOrDefault(data, k, map[]) - {UidKey}
            && forall k' :: k' in data && k' != k ==> r[k'] == data[k']
  {
    var front := uids[..|uids| - 1];
    if front != [] {
      AddUidsFrame(data, k, front);
    } else {
      assert AddUids(data, k, front) == data;
    }
  }

  /** After appending, `uid` is the earlier value and the new ones, comma-joined. */
  lemma {:induction false} AddUidsValue(data: UserData, k: string, uids: seq<string>)
    requires uids != []
    ensures var r := AddUids(data, k, uids);
            k in r && UidKey in r[k] && r[k][UidKey] == JoinWithCommas(PriorUids(data, k) + uids)
  {
    var n := |uids| - 1;
    var front := uids[..n];
    var all := PriorUids(data, k) + uids;
    if front == [] {
      assert AddUids(data, k, front) == data;
      if PriorUids(data, k) != [] {
        assert all[..1] == [data[k][UidKey]];
      }
    } else {
      AddUidsValue(data, k, front);
      assert all[..|all| - 1] == PriorUids(data, k) + front;
    }
  }

  // ---------------------------------------------------------------------------
  // Export rows
  // ---------------------------------------------------------------------------

  type Row = seq<string>

  /** The header row written into a newly created sheet. */
  const Header: Row := ["Unique Number", "FIO", "Address", "Phone", "UID"]

  /**
   * What exists before an export: no file, a file without the "UserData"
   * sheet, or a file whose "UserData" sheet holds `rows`.
   */
  datatype Workbook = NoFile | FileWithoutSheet | FileWithSheet(rows: seq<Row>)

  /**
   * The disk as exportToExcel meets it: what exists, whether an existing
   * file can be read back, and whether writing the workbook succeeds.
   * Either failure is an IOException that the method catches, after
   * which nothing is written.
   */
  datatype ExportEnv = ExportEnv(workbook: Workbook, readOk: bool, writeOk: bool)

  /** The export gets as far as writing (a new file needs no read) and the write succeeds. */
  predicate ExportWrites(env: ExportEnv) {
    (env.workbook.NoFile? || env.readOk) && env.writeOk
  }

  /** The row exported for the record of check number `k`. */
  function RowOf(k: string, f: Fields): (row: Row)
    ensures |row| == 5 && row[0] == k
    ensures Complete(f) ==> row[1] == f[FioKey] && row[2] == f[AddressKey] && row[3] == f[PhoneKey]
    ensures row[4] == GetOrDefault(f, UidKey, "")
  {
    [k, GetOrDefault(f, FioKey, ""), GetOrDefault(f, AddressKey, ""),
     GetOrDefault(f, PhoneKey, ""), GetOrDefault(f, UidKey, "")]
  }

  /** The rows for the records listed in `order`, in that order. */
  function RowsOf(data: UserData, order: seq<string>): (rows: seq<Row>)
    requires forall i :: 0 <= i < |order| ==> order[i] in data
    ensures |rows| == |order|
  {
    if order == [] then []
    else RowsOf(data, order[..|order| - 1]) + [RowOf(order[|order| - 1], data[order[|order| - 1]])]
  }

  /** Row `i` of the export is the row of the `i`-th record visited. */
  lemma {:induction false} RowsOfAt(data: UserData, order: seq<string>, i: int)
    requires forall j :: 0 <= j < |order| ==> order[j] in data
    requires 0 <= i < |order|
    ensures RowsOf(data, order)[i] == RowOf(order[i], data[order[i]])
  {
    var n := |order| - 1;
    if i < n {
      RowsOfAt(data, order[..n], i);
    } else if n > 0 {
      RowsOfAt(data, order[..n], 0);
    }
  }

  /** The sheet's rows before the new ones: only a fresh file gets the header. */
  function SheetPrefix(wb: Workbook): seq<Row> {
    match wb
    case NoFile => [Header]
    case FileWithoutSheet => []
    case FileWithSheet(rows) => rows
  }

  /**
   * exportToExcel: the sheet after the export, when the map visited the
   * check numbers of the complete records in `order`.
   */
  function ExportSheet(wb: Workbook, data: UserData, order: seq<string>): (sheet: seq<Row>)
    requires forall i :: 0 <= i < |order| ==> order[i] in data
    ensures |sheet| == |SheetPrefix(wb)| + |order|
    ensures wb.NoFile? ==> sheet[0] == Header
    ensures wb.FileWithSheet? ==> sheet[..|wb.rows|] == wb.rows
    ensures wb.FileWithoutSheet? ==> sheet == RowsOf(data, order)
    ensures sheet[|SheetPrefix(wb)|..] == RowsOf(data, order)
  {
    SheetPrefix(wb) + RowsOf(data, order)
  }

  /**
   * Whatever order the map is visited in, the export writes exactly one
   * row per record that has name, address and phone, each row in the
   * fixed column order, and no row for any other record.
   */
  lemma ExportRowsExactlyComplete(data: UserData, order: seq<string>)
    requires Enumerates(order, CompleteKeys(data))
    ensures forall i :: 0 <= i < |order| ==> order[i] in data
    ensures var rows := RowsOf(data, order);
            && |rows| == |CompleteKeys(data)|
            && (forall i :: 0 <= i < |rows| ==> Complete(data[order[i]]) && rows[i] == RowOf(order[i], data[order[i]]))
            && (forall k :: k in data && Complete(data[k]) ==> exists i :: 0 <= i < |rows| && rows[i] == RowOf(k, data[k]))
            && (forall i, j :: 0 <= i < j < |rows| ==> rows[i] != rows[j])
  {
    assert forall i :: 0 <= i < |order| ==> order[i] in CompleteKeys(data);
    var rows := RowsOf(data, order);
    EnumerationSize(order, CompleteKeys(data));
    forall i | 0 <= i < |rows|
      ensures rows[i] == RowOf(order[i], data[order[i]])
    {
      RowsOfAt(data, order, i);
    }
    forall i, j | 0 <= i < j < |rows|
      ensures rows[i] != rows[j]
    {
      assert rows[i][0] == order[i] && rows[j][0] == order[j];
    }
    forall k | k in data && Complete(data[k])
      ensures exists i :: 0 <= i < |rows| && rows[i] == RowOf(k, data[k])
    {
      assert k in CompleteKeys(data);
      var i :| 0 <= i < |order| && order[i] == k;
      RowsOfAt(data, order, i);
    }
  }

  /**
   * Exporting twice from scratch, with no change in between, repeats
   * every row: the second export appends one more row per complete
   * record after the rows of the first.
   */
  lemma ReexportRepeatsRows(data: UserData, first: seq<string>, second: seq<string>)
    requires Enumerates(first, CompleteKeys(data)) && Enumerates(second, CompleteKeys(data))
    ensures forall i :: 0 <= i < |first| ==> first[i] in data
    ensures forall i :: 0 <= i < |second| ==> second[i] in data
    ensures var once := ExportSheet(NoFile, data, first);
            var twice := ExportSheet(FileWithSheet(once), data, second);
            && |twice| == 1 + 2 * |CompleteKeys(data)|
            && twice[..|once|] == once
            && forall k :: k in data && Complete(data[k]) ==>
                 RowOf(k, data[k]) in once[1..] && RowOf(k, data[k]) in twice[|once|..]
  {
    ExportRowsExactlyComplete(data, first);
    ExportRowsExactlyComplete(data, second);
    var once := ExportSheet(NoFile, data, first);
    var twice := ExportSheet(FileWithSheet(once), data, second);
    assert once[1..] == RowsOf(data, first);
    assert twice[|once|..] == RowsOf(data, second);
  }

  // ---------------------------------------------------------------------------
  // Any sequence of changes to the store
  // ---------------------------------------------------------------------------

  datatype Store = Store(checks: set<string>, data: UserData)

  /** Every way the store's contents are changed. */
  datatype StoreOp =
    | ValidateOp(number: Option<string>)                    // validateAndSaveCheck
    | SaveNumberOp(saved: string)                           // saveCheckNumber
    | AssignOp(newUid: string -> string)                    // assignRandomUUIDs
    | AddUidOp(key: string, uid: string)                    // addUUID
    | PutFieldOp(key: string, field: string, value: string) // a questionnaire answer written into userData

  function ApplyOp(s: Store, op: StoreOp): Store {
    match op
    case ValidateOp(n) => var r := SaveCheck(s.checks, s.data, n); Store(r.checks, r.data)
    case SaveNumberOp(n) => Store(s.checks + {n}, s.data)
    case AssignOp(g) => Store(s.checks, AssignUids(s.data, g))
    case AddUidOp(k, uid) => Store(s.checks, AddUid(s.data, k, uid))
    case PutFieldOp(k, f, v) =>
      var data := PutIfAbsent(s.data, k, map[]);
      Store(s.checks, data[k := data[k][f := v]])
  }

  function RunOps(s: Store, ops: seq<StoreOp>): Store
    decreases |ops|
  {
    if ops == [] then s else RunOps(ApplyOp(s, ops[0]), ops[1..])
  }

  /** How many operations of `ops` accept the check number `n`. */
  function Acceptances(s: Store, ops: seq<StoreOp>, n: string): nat
    decreases |ops|
  {
    if ops == [] then 0
    else
      var accepted := ops[0].ValidateOp? && ops[0].number == Some(n) && SaveCheck(s.checks, s.data, ops[0].number).accepted;
      (if accepted then 1 else 0) + Acceptances(ApplyOp(s, ops[0]), ops[1..], n)
  }

  /**
   * At-most-once acceptance: whatever the store goes through, a check
   * number is accepted at most once, and never if it was already
   * accepted; the set of accepted numbers only grows, and so does the
   * set of records.
   */
  lemma {:induction false} AcceptedAtMostOnce(s: Store, ops: seq<StoreOp>, n: string)
    ensures Acceptances(s, ops, n) <= if n in s.checks then 0 else 1
    ensures s.checks <= RunOps(s, ops).checks
    ensures s.data.Keys <= RunOps(s, ops).data.Keys
    decreases |ops|
  {
    if ops != [] {
      var next := ApplyOp(s, ops[0]);
      AcceptedAtMostOnce(next, ops[1..], n);
      if ops[0].ValidateOp? && ops[0].number == Some(n) {
        assert n in next.checks;
      }
    }
  }
}
