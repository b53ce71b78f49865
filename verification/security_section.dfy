/** The account-security settings panel: the password-change form, the
    two-factor switch with its backup codes, and the icon chosen for each
    signed-in device. */
module SecuritySection {
  import opened Strings

  /** `passwordData`. */
  datatype PasswordForm = PasswordForm(current: string, newPassword: string, confirm: string)

  const EmptyForm := PasswordForm("", "", "")

  /** The three inputs, each bound to one field of the form. */
  datatype PasswordField = CurrentPassword | NewPassword | ConfirmPassword

  function FieldValue(f: PasswordForm, field: PasswordField): string {
    match field
    case CurrentPassword => f.current
    case NewPassword => f.newPassword
    case ConfirmPassword => f.confirm
  }

  /** `handlePasswordChange`: the named field takes the typed value and
      the two others are untouched. */
  function ChangeField(f: PasswordForm, field: PasswordField, value: string): (r: PasswordForm)
    ensures FieldValue(r, field) == value
    ensures forall other: PasswordField :: other != field ==> FieldValue(r, other) == FieldValue(f, other)
  {
    match field
    case CurrentPassword => f.(current := value)
    case NewPassword => f.(newPassword := value)
    case ConfirmPassword => f.(confirm := value)
  }

  /** The "Update Password" button is enabled only when every field is
      filled in. */
  predicate SubmitEnabled(f: PasswordForm) {
    f.current != "" && f.newPassword != "" && f.confirm != ""
  }

  /** Filling all three fields from the empty form enables the button. */
  lemma FillingEnablesSubmit(c: string, n: string, k: string)
    requires c != "" && n != "" && k != ""
    ensures SubmitEnabled(ChangeField(ChangeField(ChangeField(EmptyForm, ConfirmPassword, k), NewPassword, n), CurrentPassword, c))
  {
  }

  /** Whether the change went through, and the form afterwards. */
  datatype SubmitOutcome = SubmitOutcome(changed: bool, form: PasswordForm)

  /** `handlePasswordSubmit`: a mismatch between the new password and its
      confirmation is refused and the form is left as it is; otherwise
      the change is accepted and the form is cleared. The current password
      is not checked. */
  function Submit(f: PasswordForm): (r: SubmitOutcome)
    ensures r.changed <==> f.newPassword == f.confirm
    ensures !r.changed ==> r.form == f
    ensures r.changed ==> r.form == EmptyForm
  {
    if f.newPassword != f.confirm then SubmitOutcome(false, f)
    else SubmitOutcome(true, EmptyForm)
  }

  /** After an accepted change the button is disabled until the form is
      filled in again, so the same change cannot be resubmitted at once. */
  lemma SubmitClearsAndDisables(f: PasswordForm)
    requires f.newPassword == f.confirm
    ensures !SubmitEnabled(Submit(f).form)
  {
  }

  /** `twoFactorEnabled`, `showQRCode` and `backupCodes`. */
  datatype TwoFactor = TwoFactor(enabled: bool, showQR: bool, backupCodes: seq<string>)

  /** The fixed backup codes installed when two-factor is switched on. */
  const BackupCodes: seq<string> := [
    "A1B2-C3D4-E5F6",
    "G7H8-I9J0-K1L2",
    "M3N4-O5P6-Q7R8",
    "S9T0-U1V2-W3X4",
    "Y5Z6-A7B8-C9D0"]

  /** What the panel keeps in step: while two-factor is on the five codes
      are installed, and while it is off the QR panel is hidden and there
      are no codes. The QR panel may be hidden while two-factor is on,
      because "Regenerate Codes" flips it. */
  predicate Consistent(t: TwoFactor) {
    (t.enabled ==> t.backupCodes == BackupCodes)
    && (!t.enabled ==> !t.showQR && t.backupCodes == [])
  }

  function Enable(t: TwoFactor): (r: TwoFactor)
    ensures r.enabled && r.showQR
    ensures |r.backupCodes| == 5
    ensures forall i, j :: 0 <= i < j < |r.backupCodes| ==> r.backupCodes[i] != r.backupCodes[j]
    ensures Consistent(r)
  {
    TwoFactor(true, true, BackupCodes)
  }

  function Disable(t: TwoFactor): (r: TwoFactor)
    ensures !r.enabled && !r.showQR && r.backupCodes == []
    ensures Consistent(r)
  {
    TwoFactor(false, false, [])
  }

  /** "Regenerate Codes", shown only while two-factor is on, flips the QR
      panel and leaves the codes as they are; while two-factor is off the
      button is not on the page, so nothing changes. */
  function Regenerate(t: TwoFactor): (r: TwoFactor)
    ensures t.enabled ==> r.showQR == !t.showQR
    ensures r.enabled == t.enabled && r.backupCodes == t.backupCodes
    ensures !t.enabled ==> r == t
    ensures Consistent(t) ==> Consistent(r)
  {
    if t.enabled then t.(showQR := !t.showQR) else t
  }

  /** The three buttons of the two-factor card. */
  datatype Switch = SwitchOn | SwitchOff | RegenerateCodes

  function Toggle(t: TwoFactor, s: Switch): TwoFactor {
    match s
    case SwitchOn => Enable(t)
    case SwitchOff => Disable(t)
    case RegenerateCodes => Regenerate(t)
  }

  function ToggleAll(t: TwoFactor, ss: seq<Switch>): TwoFactor
    decreases |ss|
  {
    if ss == [] then t else ToggleAll(Toggle(t, ss[0]), ss[1..])
  }

  /** Any sequence of presses keeps the panel consistent; whether two-factor
      is on depends only on the last on/off press (regenerating never
      changes it), and a last press of on or off decides the whole state. */
  lemma {:induction false} TogglesStayConsistent(t: TwoFactor, ss: seq<Switch>)
    requires Consistent(t)
    ensures Consistent(ToggleAll(t, ss))
    ensures ss != [] && ss[|ss| - 1] != RegenerateCodes ==> ToggleAll(t, ss) == Toggle(t, ss[|ss| - 1])
    ensures (forall i :: 0 <= i < |ss| ==> ss[i] == RegenerateCodes) ==>
      ToggleAll(t, ss).enabled == t.enabled && ToggleAll(t, ss).backupCodes == t.backupCodes
    decreases |ss|
  {
    if ss != [] {
      TogglesStayConsistent(Toggle(t, ss[0]), ss[1..]);
      if |ss| > 1 {
        assert ss[1..][|ss[1..]| - 1] == ss[|ss| - 1];
      }
      if forall i :: 0 <= i < |ss| ==> ss[i] == RegenerateCodes {
        assert ss[0] == RegenerateCodes;
        assert forall i :: 0 <= i < |ss[1..]| ==> ss[1..][i] == ss[i + 1];
      }
    }
  }

  datatype DeviceIcon = Smartphone | Tablet | Monitor

  /** `device` contains `q` somewhere, as a contiguous run of characters. */
  ghost predicate Mentions(device: string, q: string) {
    exists i :: OccursAt(device, q, i)
  }

  /** `getDeviceIcon`: a name mentioning "iPhone" or "Android" is a phone
      (checked first), else one mentioning "iPad" or "Tablet" is a tablet,
      else a monitor. Matching is case-sensitive substring search. */
  function IconFor(device: string): (r: DeviceIcon)
    ensures r == Smartphone <==> Mentions(device, "iPhone") || Mentions(device, "Android")
    ensures r == Tablet <==>
      !Mentions(device, "iPhone") && !Mentions(device, "Android") &&
      (Mentions(device, "iPad") || Mentions(device, "Tablet"))
    ensures r == Monitor <==>
      !Mentions(device, "iPhone") && !Mentions(device, "Android") &&
      !Mentions(device, "iPad") && !Mentions(device, "Tablet")
  {
    if Includes(device, "iPhone") || Includes(device, "Android") then Smartphone
    else if Includes(device, "iPad") || Includes(device, "Tablet") then Tablet
    else Monitor
  }

  /** A name with none of the letters 'i', 'A' and 'T' can contain none of
      the four classifying words, so it falls through to the monitor
      branch (as the page's "MacBook Pro" session does). */
  lemma {:induction false} NoClassifyingLetterIsMonitor(d: string)
    requires 'i' !in d && 'A' !in d && 'T' !in d
    ensures IconFor(d) == Monitor
  {
    MissingCharExcludes(d, "iPhone", 0);
    MissingCharExcludes(d, "Android", 0);
    MissingCharExcludes(d, "iPad", 0);
    MissingCharExcludes(d, "Tablet", 0);
  }
}
