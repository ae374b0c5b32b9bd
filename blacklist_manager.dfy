/**
 * The blacklist mutations of components/dashboard/blacklist-manager.tsx:
 * add an entry, toggle an entry's active flag, delete an entry, each
 * followed by an audit row.
 */
module BlacklistManager {
  import opened Wrappers
  import opened Types
  import opened Constants
  import opened Store

  /** The add form: three text inputs, empty when left blank. */
  datatype BlacklistForm = BlacklistForm(accountNumber: string, entityName: string, reason: string)

  /** `x || null` for a form input. */
  function EmptyToNull(s: string): (r: Option<string>)
    ensures r.None? <==> s == ""
    ensures r.Some? ==> r.value == s
  {
    if s == "" then None else Some(s)
  }

  /** The form as the audit trail stores it: the raw inputs, empty strings included. */
  function FormRecord(f: BlacklistForm): Record {
    map["account_number" := Str(f.accountNumber), "entity_name" := Str(f.entityName), "reason" := Str(f.reason)]
  }

  /** The row the insert stores; the id and creation time are assigned by the database. */
  function NewEntry(f: BlacklistForm, userId: string, id: string, createdAt: string): (e: BlacklistEntry)
    ensures e.isActive && e.createdBy == userId && e.accountNumber == f.accountNumber
    ensures e.entityName.None? <==> f.entityName == ""
    ensures e.reason.None? <==> f.reason == ""
  {
    BlacklistEntry(id, f.accountNumber, EmptyToNull(f.entityName), EmptyToNull(f.reason), true, createdAt, userId)
  }

  /**
   * `handleSubmit`. `insertOk` is the outcome of the insert; the audit row
   * is written only when the insert returned no error.
   */
  method HandleSubmit(db: Db, form: BlacklistForm, userId: string, newId: string, createdAt: string, insertOk: bool)
    modifies db`blacklist, db`audit
    ensures !insertOk ==> db.blacklist == old(db.blacklist) && db.audit == old(db.audit)
    ensures insertOk ==> db.blacklist == old(db.blacklist) + [NewEntry(form, userId, newId, createdAt)]
    ensures insertOk ==>
      db.audit == old(db.audit)
                  + [AuditLog(userId, BlacklistAdded, "blacklist", form.accountNumber, None, Some(FormRecord(form)), None)]
  {
    if insertOk {
      db.blacklist := db.blacklist + [NewEntry(form, userId, newId, createdAt)];
      db.AppendAudit(AuditLog(userId, BlacklistAdded, "blacklist", form.accountNumber, None, Some(FormRecord(form)), None));
    }
  }

  predicate EntryHasId(e: BlacklistEntry, id: string) {
    e.id == id
  }

  /** `update({ is_active: !shown }).eq('id', id)`: the new flag is the negation of the flag the page showed. */
  function SetActiveRows(rows: seq<BlacklistEntry>, id: string, shown: bool): seq<BlacklistEntry> {
    UpdateWhere(rows, (e: BlacklistEntry) => EntryHasId(e, id), (e: BlacklistEntry) => e.(isActive := !shown))
  }

  function ToggleAction(wasActive: bool): string {
    if wasActive then "BLACKLIST_DEACTIVATE" else "BLACKLIST_ACTIVATE"
  }

  function ToggleAudit(entry: BlacklistEntry, userId: string): AuditLog {
    AuditLog(userId, ToggleAction(entry.isActive), "blacklist", entry.id,
             Some(map["is_active" := Bool(entry.isActive)]), Some(map["is_active" := Bool(!entry.isActive)]), None)
  }

  /**
   * `toggleActive`, given the entry as the page shows it. `updateOk` is the
   * outcome of the update; the audit row is written whatever it was.
   */
  method ToggleActive(db: Db, entry: BlacklistEntry, userId: string, updateOk: bool)
    modifies db`blacklist, db`audit
    ensures db.blacklist == (if updateOk then SetActiveRows(old(db.blacklist), entry.id, entry.isActive) else old(db.blacklist))
    ensures db.audit == old(db.audit) + [ToggleAudit(entry, userId)]
  {
    if updateOk {
      db.blacklist := SetActiveRows(db.blacklist, entry.id, entry.isActive);
    }
    db.AppendAudit(ToggleAudit(entry, userId));
  }

  /** The toggle audit row names the direction and records the old and new flag. */
  lemma ToggleAuditRecordsFlip(entry: BlacklistEntry, userId: string)
    ensures var a := ToggleAudit(entry, userId);
      && (a.action == "BLACKLIST_DEACTIVATE" <==> entry.isActive)
      && (a.action == "BLACKLIST_ACTIVATE" <==> !entry.isActive)
      && a.oldValues.Some? && a.newValues.Some?
      && a.oldValues.value["is_active"] == Bool(entry.isActive)
      && a.newValues.value["is_active"] == Bool(!entry.isActive)
  {
  }

  /** The toggle touches only the rows with that id, and there the flag becomes the negation of the shown one. */
  lemma ToggleTouchesOnlyTarget(rows: seq<BlacklistEntry>, id: string, shown: bool)
    ensures var r := SetActiveRows(rows, id, shown);
      && |r| == |rows|
      && (forall i :: 0 <= i < |rows| && rows[i].id == id ==> r[i] == rows[i].(isActive := !shown))
      && (forall i :: 0 <= i < |rows| && rows[i].id != id ==> r[i] == rows[i])
  {
  }

  /**
   * Toggling twice restores the table when each toggle starts from the
   * flag the table held (the page is refreshed between the two).
   */
  lemma {:induction false} ToggleTwiceRestores(rows: seq<BlacklistEntry>, id: string, shown: bool)
    requires forall i :: 0 <= i < |rows| && rows[i].id == id ==> rows[i].isActive == shown
    ensures SetActiveRows(SetActiveRows(rows, id, shown), id, !shown) == rows
  {
    var once := SetActiveRows(rows, id, shown);
    var twice := SetActiveRows(once, id, !shown);
    forall i | 0 <= i < |rows|
      ensures twice[i] == rows[i]
    {
      assert once[i].id == rows[i].id;
    }
  }

  /** Toggling twice from the same stale page writes the same flag twice: the second toggle changes nothing. */
  lemma {:induction false} StaleToggleIsIdempotent(rows: seq<BlacklistEntry>, id: string, shown: bool)
    ensures SetActiveRows(SetActiveRows(rows, id, shown), id, shown) == SetActiveRows(rows, id, shown)
  {
    var once := SetActiveRows(rows, id, shown);
    var twice := SetActiveRows(once, id, shown);
    forall i | 0 <= i < |rows|
      ensures twice[i] == once[i]
    {
      assert once[i].id == rows[i].id;
    }
  }

  /** `deleteEntry`: the delete, then a BLACKLIST_REMOVED row with the whole entry as old values, whatever the delete's outcome. */
  method DeleteEntry(db: Db, entry: BlacklistEntry, userId: string, deleteOk: bool)
    modifies db`blacklist, db`audit
    ensures db.blacklist == (if deleteOk then DeleteWhere(old(db.blacklist), (e: BlacklistEntry) => EntryHasId(e, entry.id))
                             else old(db.blacklist))
    ensures db.audit == old(db.audit) + [AuditLog(userId, BlacklistRemoved, "blacklist", entry.id, Some(EntryRecord(entry)), None, None)]
  {
    if deleteOk {
      db.blacklist := DeleteWhere(db.blacklist, (e: BlacklistEntry) => EntryHasId(e, entry.id));
    }
    db.AppendAudit(AuditLog(userId, BlacklistRemoved, "blacklist", entry.id, Some(EntryRecord(entry)), None, None));
  }

  /** After a delete no row has that id, and every row with another id remains. */
  lemma DeleteRemovesExactlyTheId(rows: seq<BlacklistEntry>, id: string)
    ensures var r := DeleteWhere(rows, (e: BlacklistEntry) => EntryHasId(e, id));
      && (forall i :: 0 <= i < |r| ==> r[i].id != id)
      && (forall i :: 0 <= i < |rows| && rows[i].id != id ==> rows[i] in r)
  {
  }
}
