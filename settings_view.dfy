/**
 * The settings screen (components/views/SettingsView.tsx): a profile form of
 * three text fields and a record of four preference switches, each replaced by
 * a copy with one field overridden.
 */
module SettingsView {
  import opened Types

  /** The profile form. */
  datatype FormData = FormData(name: string, email: string, bio: string)

  /** The preference switches. */
  datatype Toggles = Toggles(notifications: bool, twoFactor: bool, publicProfile: bool, newsletter: bool)

  /** The fields of the form, and the `name` attribute of the input that edits each. */
  datatype FormField = Name | Email | Bio

  function InputName(f: FormField): string
  {
    match f
    case Name => "name"
    case Email => "email"
    case Bio => "bio"
  }

  /** The form field an input's `name` attribute designates, if any. */
  function FieldOf(inputName: string): (r: Option<FormField>)
    ensures r.Some? ==> InputName(r.value) == inputName
  {
    if inputName == "name" then Some(Name)
    else if inputName == "email" then Some(Email)
    else if inputName == "bio" then Some(Bio)
    else None
  }

  function Field(d: FormData, f: FormField): string
  {
    match f
    case Name => d.name
    case Email => d.email
    case Bio => d.bio
  }

  /** The keys of the switch record. */
  datatype ToggleKey = Notifications | TwoFactor | PublicProfile | Newsletter

  function Get(t: Toggles, k: ToggleKey): bool
  {
    match k
    case Notifications => t.notifications
    case TwoFactor => t.twoFactor
    case PublicProfile => t.publicProfile
    case Newsletter => t.newsletter
  }

  const InitialFormData: FormData :=
    FormData("John Doe", "john.doe@neondash.com", "Administrador del sistema y desarrollador Frontend senior.")

  const InitialToggles: Toggles := Toggles(true, false, true, false)

  /** The switches the "Preferencias" card renders, in order; `newsletter` has none. */
  const UiToggleKeys: seq<ToggleKey> := [Notifications, TwoFactor, PublicProfile]

  /** `handleChange`: the input named `inputName` now holds `value`. */
  function HandleChange(d: FormData, inputName: string, value: string): (r: FormData)
    ensures forall f :: Field(r, f) == Field(d, f) || FieldOf(inputName) == Some(f)
  {
    match FieldOf(inputName)
    case Some(Name) => d.(name := value)
    case Some(Email) => d.(email := value)
    case Some(Bio) => d.(bio := value)
    case None => d
  }

  /** `handleToggle(key)`: flips the one switch. */
  function HandleToggle(t: Toggles, k: ToggleKey): (r: Toggles)
    ensures Get(r, k) != Get(t, k)
    ensures forall j :: j != k ==> Get(r, j) == Get(t, j)
  {
    match k
    case Notifications => t.(notifications := !t.notifications)
    case TwoFactor => t.(twoFactor := !t.twoFactor)
    case PublicProfile => t.(publicProfile := !t.publicProfile)
    case Newsletter => t.(newsletter := !t.newsletter)
  }

  /** A run of switch clicks, in order. */
  function ApplyToggles(t: Toggles, ks: seq<ToggleKey>): Toggles
    decreases |ks|
  {
    if ks == [] then t else ApplyToggles(HandleToggle(t, ks[0]), ks[1..])
  }

  /** The heading of the profile card. */
  function ProfileHeading(d: FormData): string
  {
    d.name
  }

  // ---------------------------------------------------------------------------
  // handleChange

  /** Every field's input name designates that field. */
  lemma InputNameRoundTrip(f: FormField)
    ensures FieldOf(InputName(f)) == Some(f)
  {
  }

  /** The designated field takes the new value; the other fields keep theirs. */
  lemma HandleChangeSetsOnlyField(d: FormData, f: FormField, value: string)
    ensures Field(HandleChange(d, InputName(f), value), f) == value
    ensures forall g :: g != f ==> Field(HandleChange(d, InputName(f), value), g) == Field(d, g)
  {
    InputNameRoundTrip(f);
  }

  /** An input name that designates no field leaves the form as it was. */
  lemma HandleChangeUnknownName(d: FormData, inputName: string, value: string)
    requires FieldOf(inputName) == None
    ensures HandleChange(d, inputName, value) == d
  {
  }

  /** The last edit of a field wins. */
  lemma HandleChangeOverwrites(d: FormData, inputName: string, v1: string, v2: string)
    ensures HandleChange(HandleChange(d, inputName, v1), inputName, v2) == HandleChange(d, inputName, v2)
  {
  }

  /** The profile heading shows the name the form currently holds. */
  lemma HeadingFollowsName(d: FormData, inputName: string, value: string)
    ensures ProfileHeading(HandleChange(d, inputName, value)) ==
      if inputName == "name" then value else ProfileHeading(d)
  {
  }

  // ---------------------------------------------------------------------------
  // handleToggle

  /** Exactly the chosen switch flips. */
  lemma HandleToggleFlipsOnly(t: Toggles, k: ToggleKey)
    ensures Get(HandleToggle(t, k), k) == !Get(t, k)
    ensures forall j :: j != k ==> Get(HandleToggle(t, k), j) == Get(t, j)
  {
  }

  /** Clicking the same switch twice restores the record. */
  lemma HandleToggleTwice(t: Toggles, k: ToggleKey)
    ensures HandleToggle(HandleToggle(t, k), k) == t
  {
  }

  /** The number of occurrences of `k` in `ks`. */
  function Count(ks: seq<ToggleKey>, k: ToggleKey): nat
  {
    if ks == [] then 0 else (if ks[0] == k then 1 else 0) + Count(ks[1..], k)
  }

  /** After a run of clicks, a switch is flipped exactly when it was clicked an odd number of times. */
  lemma {:induction false} ApplyTogglesParity(t: Toggles, ks: seq<ToggleKey>, k: ToggleKey)
    ensures Get(ApplyToggles(t, ks), k) == (Get(t, k) != (Count(ks, k) % 2 == 1))
    decreases |ks|
  {
    if ks != [] {
      ApplyTogglesParity(HandleToggle(t, ks[0]), ks[1..], k);
    }
  }

  /** `newsletter` has no switch on screen, so no run of clicks on the rendered switches changes it. */
  lemma NewsletterUnreachable(ks: seq<ToggleKey>)
    requires forall i :: 0 <= i < |ks| ==> ks[i] in UiToggleKeys
    ensures !ApplyToggles(InitialToggles, ks).newsletter
  {
    ApplyTogglesParity(InitialToggles, ks, Newsletter);
    NotCounted(ks, Newsletter);
  }

  lemma {:induction false} NotCounted(ks: seq<ToggleKey>, k: ToggleKey)
    requires forall i :: 0 <= i < |ks| ==> ks[i] != k
    ensures Count(ks, k) == 0
  {
    if ks != [] {
      assert forall i :: 0 <= i < |ks[1..]| ==> ks[1..][i] == ks[i + 1];
      NotCounted(ks[1..], k);
    }
  }

  /** The screen starts from the defaults of its `useState` calls. */
  lemma InitialState()
    ensures ProfileHeading(InitialFormData) == "John Doe"
    ensures Get(InitialToggles, Notifications) && !Get(InitialToggles, TwoFactor)
    ensures Get(InitialToggles, PublicProfile) && !Get(InitialToggles, Newsletter)
    ensures Newsletter !in UiToggleKeys
  {
  }
}
