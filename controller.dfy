/**
 * The update controller (UpdateController): the questionnaire's state as
 * two mutable fields over the shared record store. Each method is proved
 * to change the fields and the store as module ControllerSpec says, and
 * to keep the invariant that makes the questionnaire's lookups safe.
 */
module Controller {
  import opened Wrappers
  import opened Records
  import opened StorageSpec
  import opened ControllerSpec
  import opened Storage

  /**
   * A file that existed before the export still exists afterwards, and a
   * successful write leaves one: the only link between what the export
   * saw and what the controller's existence check finds.
   */
  predicate ExistsAfterExport(env: ExportEnv, fileExists: bool) {
    (!env.workbook.NoFile? || ExportWrites(env)) ==> fileExists
  }

  /**
   * What the /export command leaves behind: a successful write holds the
   * export of `data` in some visiting order and a failed read or write
   * writes nothing; if the file exists afterwards it is sent with the
   * identifier listing, otherwise an error, which can then only follow a
   * first export whose write failed.
   */
  ghost predicate ExportReplies(data: UserData, env: ExportEnv, fileExists: bool,
                                replies: seq<Reply>, written: Option<seq<Row>>)
  {
    && (written.Some? <==> ExportWrites(env))
    && (written.Some? ==>
          exists order :: Enumerates(order, CompleteKeys(data)) &&
            (forall i :: 0 <= i < |order| ==> order[i] in data) &&
            written.value == ExportSheet(env.workbook, data, order))
    && (fileExists ==>
          && |replies| == 2 && replies[0] == ExcelFile && replies[1].UidList?
          && exists order :: Enumerates(order, data.Keys) &&
               (forall i :: 0 <= i < |order| ==> order[i] in data) &&
               replies[1].text == Listing(data, order))
    && (!fileExists ==> replies == [ExportFailed])
    && (ExistsAfterExport(env, fileExists) && replies == [ExportFailed] ==>
          written.None? && env.workbook.NoFile?)
  }

  class UpdateController {
    const storage: UserDataStorage
    /** The receipt whose questionnaire is open; None where the source holds null. */
    var currentUserCheckNumber: Option<string>
    /** 0: awaiting the name, 1: the address, 2: the phone number. */
    var currentInputStep: int

    /** The fields and the store, as a value. */
    ghost function Abs(): State
      reads this, storage
    {
      State(Session(currentUserCheckNumber, currentInputStep), storage.userData, storage.uniqueChecks)
    }

    ghost predicate Valid()
      reads this, storage
    {
      Inv(Abs())
    }

    constructor (storage: UserDataStorage)
      ensures this.storage == storage
      ensures currentUserCheckNumber.None? && currentInputStep == 0
      ensures Valid()
    {
      this.storage := storage;
      currentUserCheckNumber := None;
      currentInputStep := 0;
    }

    /**
     * processUpdate. The environment supplies the UUIDs drawn
     * (`freshUid`, `newUid`), the disk an export meets (`env`) and
     * whether the export file exists when the controller looks for it
     * (`fileExists`). `written` is the sheet an export writes.
     */
    method ProcessUpdate(update: Option<Update>, freshUid: string, newUid: string -> string,
                         env: ExportEnv, fileExists: bool)
      returns (replies: seq<Reply>, written: Option<seq<Row>>)
      requires Valid()
      modifies this, storage
      ensures Valid()
      ensures Abs() == Step(old(Abs()), Input(update, freshUid, newUid))
      ensures !RouteOf(update).Export? ==> written.None?
      ensures match RouteOf(update)
              case NullUpdate => replies == []
              case Start => replies == [Welcome]
              case GetExcel => replies == [if fileExists then ExcelFile else ExcelMissing]
              case Answer(text) => replies == Collect(old(Abs()), text, freshUid).replies
              case Receipt(number) => replies == HandleDocument(old(Abs()), number).replies
              case Unsupported => replies == [UnsupportedType]
              case Export => ExportReplies(storage.userData, env, fileExists, replies, written)
    {
      written := None;
      if update.None? || update.value.message.None? {
        replies := [];
        return;
      }
      var message := update.value.message.value;
      if message.text.Some? {
        replies, written := HandleTextMessage(message.text.value, freshUid, newUid, env, fileExists);
      } else if message.document.Some? {
        replies := HandleDocumentMessage(message.document.value);
      } else {
        replies := [UnsupportedType];
      }
    }

    method HandleTextMessage(text: string, freshUid: string, newUid: string -> string,
                             env: ExportEnv, fileExists: bool)
      returns (replies: seq<Reply>, written: Option<seq<Row>>)
      requires Valid()
      modifies this, storage
      ensures Valid()
      ensures Abs() == TextStep(old(Abs()), text, freshUid, newUid)
      ensures text != ExportCommand ==> written.None?
      ensures text == StartCommand ==> replies == [Welcome]
      ensures text == GetExcelCommand ==> replies == [if fileExists then ExcelFile else ExcelMissing]
      ensures text !in {StartCommand, ExportCommand, GetExcelCommand} ==>
                replies == Collect(old(Abs()), text, freshUid).replies
      ensures text == ExportCommand ==> ExportReplies(storage.userData, env, fileExists, replies, written)
    {
      written := None;
      if text == StartCommand {
        replies := [Welcome];
      } else if text == ExportCommand {
        replies, written := HandleExport(newUid, env, fileExists);
      } else if text == GetExcelCommand {
        replies := [SendExcelFile(fileExists)];
      } else {
        replies := CollectUserInfo(text, freshUid);
      }
    }

    /** The /export command: fill in identifiers, export, send the file and the listing. */
    method HandleExport(newUid: string -> string, env: ExportEnv, fileExists: bool)
      returns (replies: seq<Reply>, written: Option<seq<Row>>)
      requires Valid()
      modifies storage
      ensures Valid()
      ensures storage.userData == AssignUids(old(storage.userData), newUid)
      ensures storage.uniqueChecks == old(storage.uniqueChecks)
      ensures ExportReplies(storage.userData, env, fileExists, replies, written)
    {
      storage.AssignRandomUuids(newUid);
      written := storage.ExportToExcel(env);
      if fileExists {
        var listing := SendUidsToChat();
        replies := [SendExcelFile(fileExists), listing];
      } else {
        replies := [ExportFailed];
      }
    }

    /** collectUserInfo: `uid` is the UUID drawn when the phone number arrives. */
    method CollectUserInfo(text: string, uid: string) returns (replies: seq<Reply>)
      requires Valid()
      modifies this, storage
      ensures Valid()
      ensures Abs() == Collect(old(Abs()), text, uid).state
      ensures replies == Collect(old(Abs()), text, uid).replies
    {
      if currentUserCheckNumber.None? {
        return [SendReceiptFirst];
      }
      var k := currentUserCheckNumber.value;
      if currentInputStep == 0 {
        var rec := GetOrDefault(storage.userData, k, map[]);
        storage.userData := storage.userData[k := rec[FioKey := text]];
        replies := [AskAddress];
        currentInputStep := currentInputStep + 1;
      } else if currentInputStep == 1 {
        storage.userData := storage.userData[k := storage.userData[k][AddressKey := text]];
        replies := [AskPhone];
        currentInputStep := currentInputStep + 1;
      } else {
        assert currentInputStep == 2;
        storage.userData := storage.userData[k := storage.userData[k][PhoneKey := text]];
        storage.userData := storage.userData[k := storage.userData[k][UidKey := uid]];
        replies := [DataSaved(uid)];
        currentUserCheckNumber := None;
        currentInputStep := 0;
      }
    }

    /** sendUIDsToChat: one line per record, in the map's visiting order. */
    method SendUidsToChat() returns (reply: Reply)
      ensures reply.UidList?
      ensures exists order :: Enumerates(order, storage.userData.Keys) &&
                (forall i :: 0 <= i < |order| ==> order[i] in storage.userData) &&
                reply.text == Listing(storage.userData, order)
    {
      var data := storage.userData;
      var text := ListingHeader;
      var remaining := data.Keys;
      ghost var order: seq<string> := [];
      assert Listing(data, order) == ListingHeader;
      while remaining != {}
        invariant remaining <= data.Keys
        invariant NoDuplicates(order)
        invariant forall x :: x in order <==> x in data && x !in remaining
        invariant forall i :: 0 <= i < |order| ==> order[i] in data
        invariant text == Listing(data, order)
        decreases remaining
      {
        var k :| k in remaining;
        ListingAppend(data, order, k);
        text := text + UidLine(k, data[k]);
        assert (order + [k])[..|order|] == order;
        order := order + [k];
        remaining := remaining - {k};
      }
      assert Enumerates(order, data.Keys);
      reply := UidList(text);
    }

    /** handleDocumentMessage, with the document's check number fed to validateAndSaveCheck. */
    method HandleDocumentMessage(document: Document) returns (replies: seq<Reply>)
      requires Valid()
      modifies this, storage
      ensures Valid()
      ensures Abs() == HandleDocument(old(Abs()), document.checkNumber).state
      ensures replies == HandleDocument(old(Abs()), document.checkNumber).replies
    {
      var accepted := storage.ValidateAndSaveCheck(document.checkNumber);
      if accepted {
        currentUserCheckNumber := document.checkNumber;
        replies := [CheckAccepted];
        currentInputStep := 0;
      } else {
        replies := [CheckRejected];
      }
    }

    /** sendExcelFile: the file is sent if it exists. */
    function SendExcelFile(fileExists: bool): (reply: Reply)
      ensures reply == ExcelFile <==> fileExists
      ensures reply == ExcelMissing <==> !fileExists
    {
      if fileExists then ExcelFile else ExcelMissing
    }
  }
}
