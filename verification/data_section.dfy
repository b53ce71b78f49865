/** The data-and-privacy settings panel: the typed confirmation that guards
    account deletion, the storage-usage colour bands, and the keyed updates
    of the export options and the backup settings. */
module DataSection {

  /** The phrase the user must type before the account can be deleted. */
  const DeletePhrase: string := "DELETE MY ACCOUNT"

  /** The confirmation text typed so far and whether the modal is open. */
  datatype DeleteDialog = DeleteDialog(confirmation: string, modalOpen: bool)

  /** The "Delete My Account" button on the page opens the modal. */
  function OpenModal(d: DeleteDialog): (r: DeleteDialog)
    ensures r.modalOpen && r.confirmation == d.confirmation
  {
    d.(modalOpen := true)
  }

  /** Typing into the confirmation input. */
  function TypeConfirmation(d: DeleteDialog, text: string): (r: DeleteDialog)
    ensures r.confirmation == text && r.modalOpen == d.modalOpen
  {
    d.(confirmation := text)
  }

  /** The outcome of pressing "Delete Account": whether the request was
      submitted, and the dialog afterwards. */
  datatype DeleteOutcome = DeleteOutcome(submitted: bool, dialog: DeleteDialog)

  /** `handleDeleteAccount`: a wrong phrase changes nothing (the modal stays
      open); the exact phrase submits the request and closes the modal,
      leaving the typed text as it is. */
  function DeleteAccount(d: DeleteDialog): (r: DeleteOutcome)
    ensures r.submitted <==> d.confirmation == DeletePhrase
    ensures !r.submitted ==> r.dialog == d
    ensures r.submitted ==> !r.dialog.modalOpen && r.dialog.confirmation == d.confirmation
  {
    if d.confirmation != DeletePhrase then DeleteOutcome(false, d)
    else DeleteOutcome(true, d.(modalOpen := false))
  }

  /** The modal's delete button is disabled while the phrase is wrong. */
  predicate DeleteDisabled(d: DeleteDialog) {
    d.confirmation != DeletePhrase
  }

  /** The disabled state of the button and the handler's own guard agree: a
      press on an enabled button always submits, and a press that would be
      refused is only possible on a disabled button. */
  lemma DeleteDisabledIffRefused(d: DeleteDialog)
    ensures DeleteDisabled(d) <==> !DeleteAccount(d).submitted
  {
  }

  /** The modal's "Cancel": close and forget the typed text. */
  function Cancel(d: DeleteDialog): (r: DeleteDialog)
    ensures !r.modalOpen && r.confirmation == ""
    ensures DeleteDisabled(r)
  {
    DeleteDialog("", false)
  }

  /** Cancelling and reopening presents an empty input, so a deletion needs
      the phrase typed again; a successful deletion, in contrast, keeps the
      phrase, so reopening the modal allows an immediate second request. */
  lemma ReopenAfterCancelNeedsPhrase(d: DeleteDialog)
    ensures !DeleteAccount(OpenModal(Cancel(d))).submitted
    ensures DeleteAccount(d).submitted ==> DeleteAccount(OpenModal(DeleteAccount(d).dialog)).submitted
  {
  }

  /** `getStoragePercentage`: used over total, as a percentage. The page's
      usage record is fixed, with a total of 10 (GB), so the divisor is
      never zero. */
  function StoragePercentage(used: real, total: real): (p: real)
    requires total > 0.0
    ensures p * total == used * 100.0
  {
    used / total * 100.0
  }

  datatype StorageColor = Destructive | Warning | Primary

  /** `getStorageColor`: above 90 % destructive, above 75 % warning,
      otherwise primary. */
  function StorageColorFor(p: real): (c: StorageColor)
    ensures c == Destructive <==> p > 90.0
    ensures c == Warning <==> 75.0 < p <= 90.0
    ensures c == Primary <==> p <= 75.0
  {
    if p > 90.0 then Destructive
    else if p > 75.0 then Warning
    else Primary
  }

  /** The bands only get more severe as usage grows. */
  function Severity(c: StorageColor): nat {
    match c
    case Primary => 0
    case Warning => 1
    case Destructive => 2
  }

  lemma StorageColorMonotone(p: real, q: real)
    requires p <= q
    ensures Severity(StorageColorFor(p)) <= Severity(StorageColorFor(q))
  {
  }

  /** A setting value: the export options are booleans; the backup record
      holds a boolean, a frequency name and a retention in days. */
  datatype Setting = Flag(b: bool) | Name(s: string) | Days(n: int)

  type Settings = map<string, Setting>

  /** `handleExportOptionChange` and `handleBackupSettingChange` both spread
      the previous record and overwrite one computed key: the named key
      gets the new value (added if it was missing), every other key is
      untouched. */
  function SetKey(prior: Settings, key: string, value: Setting): (r: Settings)
    ensures key in r && r[key] == value
    ensures r.Keys == prior.Keys + {key}
    ensures forall k :: k in prior && k != key ==> r[k] == prior[k]
  {
    prior[key := value]
  }

  /** Setting a key to the value it already has changes nothing, and
      setting two different keys commutes. */
  lemma SetKeyIdempotent(prior: Settings, key: string)
    requires key in prior
    ensures SetKey(prior, key, prior[key]) == prior
  {
  }

  lemma SetKeysCommute(s: Settings, k1: string, v1: Setting, k2: string, v2: Setting)
    requires k1 != k2
    ensures SetKey(SetKey(s, k1, v1), k2, v2) == SetKey(SetKey(s, k2, v2), k1, v1)
  {
  }

  /** Every value is a checkbox flag, as in the export options record. */
  predicate AllFlags(s: Settings) {
    forall k :: k in s ==> s[k].Flag?
  }

  /** Ticking or unticking an existing option keeps the record's key set,
      and a record of flags stays a record of flags. */
  lemma ExportToggleKeepsKeys(prior: Settings, key: string, checked: bool)
    requires key in prior
    ensures SetKey(prior, key, Flag(checked)).Keys == prior.Keys
    ensures AllFlags(prior) ==> AllFlags(SetKey(prior, key, Flag(checked)))
  {
  }
}
