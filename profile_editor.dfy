/** The profile editor: how a stored profile row fills the form, how the
    form is normalised into the row that is written back, when saving is
    allowed, and the component state its handlers update. */
module ProfileEditing {
  import opened Schema
  import opened Text

  // ---------------------------------------------------------------------
  // The form
  // ---------------------------------------------------------------------

  /** The six inputs of the form, named after the columns they edit. */
  datatype Field = Username | Bio | Birthdate | AcademicInterests | NonAcademicInterests | LookingFor

  /** The `formData` state: every input holds a string, never null. */
  datatype FormData = FormData(
    username: string,
    bio: string,
    birthdate: string,
    academicInterests: string,
    nonAcademicInterests: string,
    lookingFor: string)

  /** The form as it starts out, all inputs empty. */
  const EmptyForm := FormData("", "", "", "", "", "")

  function Get(form: FormData, field: Field): string {
    match field
    case Username => form.username
    case Bio => form.bio
    case Birthdate => form.birthdate
    case AcademicInterests => form.academicInterests
    case NonAcademicInterests => form.nonAcademicInterests
    case LookingFor => form.lookingFor
  }

  /** The form after one input changes: that input takes the new value and
      the other five keep theirs. */
  function WithField(form: FormData, field: Field, value: string): (r: FormData)
    ensures forall g :: Get(r, g) == if g == field then value else Get(form, g)
  {
    match field
    case Username => form.(username := value)
    case Bio => form.(bio := value)
    case Birthdate => form.(birthdate := value)
    case AcademicInterests => form.(academicInterests := value)
    case NonAcademicInterests => form.(nonAcademicInterests := value)
    case LookingFor => form.(lookingFor := value)
  }

  /** Setting an input to the value it already has changes nothing, and the
      last of two writes to the same input wins. */
  lemma WithFieldLaws(form: FormData, field: Field, v: string, w: string)
    ensures WithField(form, field, Get(form, field)) == form
    ensures WithField(WithField(form, field, v), field, w) == WithField(form, field, w)
  {
  }

  /** The column of a row that an input edits; the NOT NULL columns are
      never None. */
  function Column(row: Profile, field: Field): Option<string> {
    match field
    case Username => Some(row.username)
    case Bio => row.bio
    case Birthdate => Some(row.birthdate)
    case AcademicInterests => row.academicInterests
    case NonAcademicInterests => row.nonAcademicInterests
    case LookingFor => row.lookingFor
  }

  /** `value || ''`: null becomes the empty string. */
  function OrEmpty(value: Option<string>): (r: string)
    ensures value.None? ==> r == []
    ensures value.Some? ==> r == value.value
  {
    if value.Some? then value.value else []
  }

  /** The form a fetched row fills in: each input shows its column, with
      null shown as empty. */
  function FormFromRow(row: Profile): (form: FormData)
    ensures forall g :: Get(form, g) == OrEmpty(Column(row, g))
  {
    FormData(
      row.username,
      OrEmpty(row.bio),
      row.birthdate,
      OrEmpty(row.academicInterests),
      OrEmpty(row.nonAcademicInterests),
      OrEmpty(row.lookingFor))
  }

  // ---------------------------------------------------------------------
  // The row written on save
  // ---------------------------------------------------------------------

  /** The `profileData` object sent to `update` or `insert`. */
  datatype ProfileData = ProfileData(
    userId: UserId,
    username: string,
    bio: Option<string>,
    birthdate: string,
    academicInterests: Option<string>,
    nonAcademicInterests: Option<string>,
    lookingFor: Option<string>)

  /** `s.trim() || null`. */
  function NullIfBlank(s: string): (r: Option<string>)
    ensures r.None? <==> AllWhitespace(s)
    ensures r.Some? ==> r.value == Trim(s) && r.value != [] && IsTrimmed(r.value)
  {
    TrimEmptyIff(s);
    var t := Trim(s);
    if t == [] then None else Some(t)
  }

  /** `stored` is what an optional input holding `s` is saved as: null when
      the input is blank, otherwise its trimmed text. */
  predicate SavedAs(stored: Option<string>, s: string) {
    (stored.None? <==> AllWhitespace(s)) && (stored.Some? ==> stored.value == Trim(s))
  }

  /** The payload of `handleSubmit`: the username is trimmed, the birthdate
      is sent as typed, and each optional text is trimmed, blank becoming null. */
  function BuildProfileData(uid: UserId, form: FormData): (d: ProfileData)
    ensures d.userId == uid
    ensures d.username == Trim(form.username) && d.birthdate == form.birthdate
    ensures SavedAs(d.bio, form.bio) && SavedAs(d.lookingFor, form.lookingFor)
    ensures SavedAs(d.academicInterests, form.academicInterests)
    ensures SavedAs(d.nonAcademicInterests, form.nonAcademicInterests)
  {
    ProfileData(
      uid,
      Trim(form.username),
      NullIfBlank(form.bio),
      form.birthdate,
      NullIfBlank(form.academicInterests),
      NullIfBlank(form.nonAcademicInterests),
      NullIfBlank(form.lookingFor))
  }

  /** The user-editable columns of a row, as a payload. */
  function DataOf(row: Profile): ProfileData {
    ProfileData(row.userId, row.username, row.bio, row.birthdate,
                row.academicInterests, row.nonAcademicInterests, row.lookingFor)
  }

  /** An optional text column as a save leaves it: null or non-empty trimmed text. */
  predicate CleanText(value: Option<string>) {
    value.None? || (value.value != [] && IsTrimmed(value.value))
  }

  /** A row in the shape a save produces. */
  predicate CleanRow(row: Profile) {
    IsTrimmed(row.username) && CleanText(row.bio) && CleanText(row.academicInterests)
      && CleanText(row.nonAcademicInterests) && CleanText(row.lookingFor)
  }

  lemma CleanTextRoundTrip(value: Option<string>)
    requires CleanText(value)
    ensures NullIfBlank(OrEmpty(value)) == value
  {
    if value.Some? {
      TrimOfTrimmed(value.value);
    } else {
      TrimOfTrimmed([]);
    }
  }

  /** A clean row loaded into the form and saved unchanged is written back
      as it was. */
  lemma LoadSaveRoundTrip(row: Profile)
    requires CleanRow(row)
    ensures BuildProfileData(row.userId, FormFromRow(row)) == DataOf(row)
  {
    TrimOfTrimmed(row.username);
    CleanTextRoundTrip(row.bio);
    CleanTextRoundTrip(row.academicInterests);
    CleanTextRoundTrip(row.nonAcademicInterests);
    CleanTextRoundTrip(row.lookingFor);
  }

  /** Every save produces a clean row; so saving, reloading and saving again
      writes the same payload as the first save. */
  lemma SaveIsStable(uid: UserId, form: FormData, row: Profile)
    requires DataOf(row) == BuildProfileData(uid, form)
    ensures CleanRow(row)
    ensures BuildProfileData(uid, FormFromRow(row)) == BuildProfileData(uid, form)
  {
    TrimIdempotent(form.username);
    assert CleanRow(row);
    LoadSaveRoundTrip(row);
  }

  /** The submit button's `disabled` condition, negated:
      `!(saving || !username.trim() || !birthdate)`. */
  function SaveEnabled(saving: bool, form: FormData): (r: bool)
    ensures r ==> !saving && form.username != [] && form.birthdate != []
    ensures saving || form.birthdate == [] ==> !r
  {
    !saving && Trim(form.username) != [] && form.birthdate != []
  }

  /** Saving is enabled exactly when no save is running, the username holds
      some non-whitespace character and a birthdate is set; then the saved
      username is not empty. */
  lemma SaveEnabledIff(saving: bool, form: FormData, uid: UserId)
    ensures SaveEnabled(saving, form) <==>
              !saving && !AllWhitespace(form.username) && |form.birthdate| > 0
    ensures SaveEnabled(saving, form) ==> BuildProfileData(uid, form).username != []
  {
    TrimEmptyIff(form.username);
  }

  // ---------------------------------------------------------------------
  // Fetching the profile
  // ---------------------------------------------------------------------

  /** PostgREST's code for a `maybeSingle` query that matched several rows. */
  const MultipleRowsCode := "PGRST116"

  /** What `.select('*').eq('user_id', id).maybeSingle()` returns: an error
      code or nothing, and at most one row. */
  datatype ProfileFetch = ProfileFetch(errorCode: Option<string>, data: Option<Profile>)

  /** `maybeSingle` over the matching rows: none gives no data, one gives
      that row, more than one gives the PGRST116 error. */
  function MaybeSingle(rows: seq<Profile>): (r: ProfileFetch)
    ensures r.data.Some? <==> |rows| == 1
    ensures r.data.Some? ==> r.data.value == rows[0]
    ensures r.errorCode.Some? <==> |rows| > 1
  {
    if |rows| == 1 then ProfileFetch(None, Some(rows[0]))
    else if |rows| == 0 then ProfileFetch(None, None)
    else ProfileFetch(Some(MultipleRowsCode), None)
  }

  /** `error && error.code !== 'PGRST116'`: the fetch throws. */
  function FetchFails(outcome: ProfileFetch): (r: bool)
    ensures r ==> outcome.errorCode.Some?
    ensures outcome.errorCode == Some(MultipleRowsCode) ==> !r
  {
    outcome.errorCode.Some? && outcome.errorCode.value != MultipleRowsCode
  }

  /** The row a fetch stores, if any: a failed fetch stores nothing. */
  function Fetched(outcome: ProfileFetch): (r: Option<Profile>)
    ensures FetchFails(outcome) ==> r.None?
    ensures !FetchFails(outcome) ==> r == outcome.data
  {
    if FetchFails(outcome) then None else outcome.data
  }

  /** A `maybeSingle` fetch never counts as failed; it stores the user's row
      when there is exactly one, and nothing otherwise. */
  lemma MaybeSingleNeverFails(rows: seq<Profile>)
    ensures !FetchFails(MaybeSingle(rows))
    ensures Fetched(MaybeSingle(rows)) == if |rows| == 1 then Some(rows[0]) else None
  {
  }

  // ---------------------------------------------------------------------
  // The component state
  // ---------------------------------------------------------------------

  /** The write `handleSubmit` sends: an update of the user's row when a
      profile was loaded, an insert otherwise. */
  datatype ProfileWrite = UpdateProfile(data: ProfileData, whereUserId: UserId) | InsertProfile(data: ProfileData)

  function WriteFor(uid: UserId, profile: Option<Profile>, form: FormData): (w: ProfileWrite)
    ensures w.UpdateProfile? <==> profile.Some?
    ensures w.UpdateProfile? ==> w.whereUserId == uid
    ensures w.data == BuildProfileData(uid, form)
  {
    var d := BuildProfileData(uid, form);
    if profile.Some? then UpdateProfile(d, uid) else InsertProfile(d)
  }

  /** The ProfileEditor component for a signed-in `user` (or None). */
  class ProfileEditor {
    const user: Option<UserId>
    var profile: Option<Profile>
    var loading: bool
    var saving: bool
    var formData: FormData

    constructor (user: Option<UserId>)
      ensures this.user == user
      ensures profile == None && loading && !saving && formData == EmptyForm
    {
      this.user := user;
      profile := None;
      loading := true;
      saving := false;
      formData := EmptyForm;
    }

    /** `fetchProfile`: with no user nothing happens; otherwise a row that
        arrives becomes the profile and fills the form, anything else leaves
        both alone, and loading ends. */
    method FetchProfile(outcome: ProfileFetch)
      modifies this
      ensures user.None? ==> unchanged(this)
      ensures user.Some? ==> !loading && unchanged(this`saving)
      ensures user.Some? && Fetched(outcome).Some? ==>
                profile == Fetched(outcome) && formData == FormFromRow(Fetched(outcome).value)
      ensures user.Some? && Fetched(outcome).None? ==> unchanged(this`profile, this`formData)
    {
      if user.None? {
        return;
      }
      loading := true;
      if !FetchFails(outcome) && outcome.data.Some? {
        profile := outcome.data;
        formData := FormFromRow(outcome.data.value);
      }
      loading := false;
    }

    /** `handleInputChange`: one input changes, nothing else does. */
    method HandleInputChange(field: Field, value: string)
      modifies this
      ensures formData == WithField(old(formData), field, value)
      ensures unchanged(this`profile, this`loading, this`saving)
    {
      formData := WithField(formData, field, value);
    }

    /** `handleSubmit`: with a user, the normalised form is written (update
        or insert); a failed write leaves the state alone, a successful one
        re-fetches the profile; saving is over afterwards. */
    method HandleSubmit(writeFailed: bool, refresh: ProfileFetch) returns (sent: Option<ProfileWrite>)
      modifies this
      ensures user.None? ==> sent == None && unchanged(this)
      ensures user.Some? ==> sent == Some(WriteFor(user.value, old(profile), old(formData))) && !saving
      ensures user.Some? && writeFailed ==> unchanged(this`profile, this`formData, this`loading)
      ensures user.Some? && !writeFailed ==> !loading
      ensures user.Some? && !writeFailed && Fetched(refresh).Some? ==>
                profile == Fetched(refresh) && formData == FormFromRow(Fetched(refresh).value)
      ensures user.Some? && !writeFailed && Fetched(refresh).None? ==> unchanged(this`profile, this`formData)
    {
      if user.None? {
        return None;
      }
      var write := WriteFor(user.value, profile, formData);
      saving := true;
      sent := Some(write);
      if !writeFailed {
        FetchProfile(refresh);
      }
      saving := false;
    }
  }
}
