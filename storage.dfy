/**
 * The record store (UserDataStorage): the set of accepted check numbers
 * and the map from check number to record, changed in place. Each method
 * is proved to leave the fields exactly as the matching function of
 * module StorageSpec says.
 */
module Storage {
  import opened Wrappers
  import opened Records
  import opened StorageSpec
  import UuidCount

  class UserDataStorage {
    /** Check number to record; the controller also writes into it directly. */
    var userData: UserData
    /** Every check number ever accepted; nothing removes from it. */
    var uniqueChecks: set<string>

    constructor ()
      ensures userData == map[] && uniqueChecks == {}
    {
      userData := map[];
      uniqueChecks := {};
    }

    /** validateAndSaveCheck(String): `uniqueNumber` is None where the source passes null. */
    method ValidateAndSaveCheck(uniqueNumber: Option<string>) returns (accepted: bool)
      modifies this
      ensures var r := SaveCheck(old(uniqueChecks), old(userData), uniqueNumber);
              accepted == r.accepted && uniqueChecks == r.checks && userData == r.data
      ensures uniqueNumber.Some? ==> IsCheckProcessed(uniqueNumber.value)
    {
      if uniqueNumber.None? || uniqueNumber.value in uniqueChecks {
        return false;
      }
      uniqueChecks := uniqueChecks + {uniqueNumber.value};
      if uniqueNumber.value !in userData {
        userData := userData[uniqueNumber.value := map[]];
      }
      return true;
    }

    /**
     * exportToExcel: the rows it writes into the "UserData" sheet, or None
     * when reading the existing file or writing the workbook fails. The
     * map is visited in some order; one row is appended per complete
     * record.
     */
    method ExportToExcel(env: ExportEnv) returns (written: Option<seq<Row>>)
      ensures written.Some? <==> ExportWrites(env)
      ensures written.Some? ==>
                exists order :: Enumerates(order, CompleteKeys(userData)) &&
                  (forall i :: 0 <= i < |order| ==> order[i] in userData) &&
                  written.value == ExportSheet(env.workbook, userData, order)
    {
      if !env.workbook.NoFile? && !env.readOk {
        return None;
      }
      var sheet := SheetPrefix(env.workbook);
      var remaining := userData.Keys;
      ghost var order: seq<string> := [];
      while remaining != {}
        invariant remaining <= userData.Keys
        invariant NoDuplicates(order)
        invariant forall x :: x in order <==> x in CompleteKeys(userData) && x !in remaining
        invariant forall i :: 0 <= i < |order| ==> order[i] in userData
        invariant sheet == ExportSheet(env.workbook, userData, order)
        decreases remaining
      {
        var k :| k in remaining;
        var data := userData[k];
        if Complete(data) {
          sheet := sheet + [RowOf(k, data)];
          assert (order + [k])[..|order|] == order;
          order := order + [k];
        }
        remaining := remaining - {k};
      }
      assert Enumerates(order, CompleteKeys(userData));
      if !env.writeOk {
        return None;
      }
      written := Some(sheet);
    }

    /** assignRandomUUIDs: `newUid(k)` is the identifier drawn for record `k`. */
    method AssignRandomUuids(newUid: string -> string)
      modifies this
      ensures userData == AssignUids(old(userData), newUid)
      ensures uniqueChecks == old(uniqueChecks)
    {
      var remaining := userData.Keys;
      while remaining != {}
        invariant remaining <= old(userData).Keys
        invariant userData.Keys == old(userData).Keys
        invariant uniqueChecks == old(uniqueChecks)
        invariant forall k :: k in userData ==>
                    userData[k] == if k in remaining then old(userData)[k] else AssignUids(old(userData), newUid)[k]
        decreases remaining
      {
        var k :| k in remaining;
        var data := userData[k];
        if Complete(data) && UidKey !in data {
          userData := userData[k := data[UidKey := newUid(k)]];
        }
        remaining := remaining - {k};
      }
    }

    /**
     * getUUIDCount: one identifier unless the record's amount says more;
     * a missing record or amount is read as "0".
     */
    function GetUuidCount(checkNumber: string): (n: int)
      reads this
      ensures n >= 1
      ensures checkNumber !in userData || PaymentAmountKey !in userData[checkNumber] ==> n == 1
      ensures checkNumber in userData && PaymentAmountKey in userData[checkNumber] ==>
                n == UuidCount.CountAsWritten(userData[checkNumber][PaymentAmountKey])
    {
      UuidCount.UuidCountOf(userData, checkNumber)
    }

    /** addUUID. */
    method AddUuid(checkNumber: string, uid: string)
      modifies this
      ensures userData == AddUid(old(userData), checkNumber, uid)
      ensures uniqueChecks == old(uniqueChecks)
    {
      var rec := if checkNumber in userData then userData[checkNumber] else map[];
      if UidKey in rec {
        rec := rec[UidKey := rec[UidKey] + "," + uid];
      } else {
        rec := rec[UidKey := uid];
      }
      userData := userData[checkNumber := rec];
    }

    /** isCheckProcessed: exactly the numbers validateAndSaveCheck would now refuse. */
    function IsCheckProcessed(checkNumber: string): (r: bool)
      reads this
      ensures r <==> !SaveCheck(uniqueChecks, userData, Some(checkNumber)).accepted
    {
      checkNumber in uniqueChecks
    }

    /** saveCheckNumber: marks the number accepted without creating a record. */
    method SaveCheckNumber(checkNumber: string)
      modifies this
      ensures uniqueChecks == old(uniqueChecks) + {checkNumber}
      ensures userData == old(userData)
      ensures IsCheckProcessed(checkNumber)
    {
      uniqueChecks := uniqueChecks + {checkNumber};
    }
  }
}
