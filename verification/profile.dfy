/**
 * The profile page: the stored profile shown as an edit form (nulls become
 * defaults, the skills list becomes one comma-separated string), the form
 * saved back as a record (the skills string parsed into a list), and the
 * page state across load and save.
 */
module Profile {
  import opened Wrappers
  import opened Text

  /** `s.split(',').map(s => s.trim()).filter(s => s)` without the empty guard. */
  function SkillsOf(pieces: seq<string>): (r: seq<string>)
    ensures forall k :: 0 <= k < |r| ==> r[k] != "" && IsTrimmed(r[k])
    ensures (forall j :: 0 <= j < |pieces| ==> ',' !in pieces[j]) ==> forall k :: 0 <= k < |r| ==> ',' !in r[k]
  {
    if |pieces| == 0 then []
    else
      var rest := SkillsOf(pieces[1..]);
      var t := Trim(pieces[0]);
      if t == "" then rest else [t] + rest
  }

  lemma {:induction false} SkillsOfAppend(a: seq<string>, b: seq<string>)
    ensures SkillsOf(a + b) == SkillsOf(a) + SkillsOf(b)
  {
    if |a| > 0 {
      assert (a + b)[0] == a[0];
      assert (a + b)[1..] == a[1..] + b;
      SkillsOfAppend(a[1..], b);
    } else {
      assert a + b == b;
    }
  }

  /** The comma-separated skills input as a list: an empty input gives no
      skills; otherwise every comma-separated piece, trimmed, without the
      empty ones. */
  function ParseSkills(input: string): (r: seq<string>)
    ensures input == "" ==> r == []
    ensures forall k :: 0 <= k < |r| ==> r[k] != "" && IsTrimmed(r[k]) && ',' !in r[k]
  {
    if input == "" then []
    else
      SkillsOf(Split(input, ','))
  }

  /** A skill as the form can carry it through a save and a reload. */
  predicate CleanSkill(s: string) {
    s != "" && IsTrimmed(s) && ',' !in s
  }

  /** Splitting a string that starts with a non-separator glues that
      character to the first piece. */
  lemma SplitCons(c: char, s: string, sep: char)
    requires c != sep
    ensures Split([c] + s, sep) == [[c] + Split(s, sep)[0]] + Split(s, sep)[1..]
  {
    assert ([c] + s)[1..] == s;
  }

  /** A leading space does not change the skills of a text. */
  lemma SkillsIgnoreLeadingSpace(s: string)
    ensures SkillsOf(Split(" " + s, ',')) == SkillsOf(Split(s, ','))
  {
    var ps := Split(s, ',');
    SplitCons(' ', s, ',');
    TrimLeadingSpace(' ', ps[0]);
    assert [[' '] + ps[0]] + ps[1..] == [" " + ps[0]] + ps[1..];
    SkillsOfAppend([" " + ps[0]], ps[1..]);
    SkillsOfAppend([ps[0]], ps[1..]);
    assert [ps[0]] + ps[1..] == ps;
  }

  lemma SingleSkill(x: string)
    requires CleanSkill(x)
    ensures SkillsOf(Split(x, ',')) == [x]
  {
    SplitNoSep(x, ',');
    TrimOfTrimmed(x);
    assert SkillsOf([x]) == [x] by {
      assert [x][1..] == [];
    }
  }

  /** One more clean skill in front of a list that already round-trips. */
  lemma SkillsRoundTripStep(x: string, rest: string, tail: seq<string>)
    requires CleanSkill(x) && rest != ""
    requires ParseSkills(rest) == tail
    ensures ParseSkills(x + ", " + rest) == [x] + tail
  {
    var whole := x + ", " + rest;
    assert whole == x + [','] + (" " + rest);
    SplitAround(x, ',', " " + rest);
    SkillsOfAppend(Split(x, ','), Split(" " + rest, ','));
    SingleSkill(x);
    SkillsIgnoreLeadingSpace(rest);
  }

  /** Round trip: a list of clean skills, joined with `", "` as the form
      shows it and parsed again on save, is the same list. */
  lemma {:induction false} SkillsRoundTrip(xs: seq<string>)
    requires forall k :: 0 <= k < |xs| ==> CleanSkill(xs[k])
    ensures ParseSkills(Join(xs, ", ")) == xs
  {
    if |xs| == 1 {
      SingleSkill(xs[0]);
    } else if |xs| > 1 {
      var rest := Join(xs[1..], ", ");
      SkillsRoundTrip(xs[1..]);
      JoinStartsWithFirst(xs[1..], ", ");
      SkillsRoundTripStep(xs[0], rest, xs[1..]);
      assert [xs[0]] + xs[1..] == xs;
    }
  }

  /** A stored profile row; absent columns are `None`. */
  datatype ProfileRow = ProfileRow(
    fullName: Option<string>,
    email: Option<string>,
    bio: Option<string>,
    universityName: Option<string>,
    branchCourse: Option<string>,
    skills: Option<seq<string>>,
    competitiveExam: Option<string>,
    careerGoal: Option<string>,
    visibility: Option<bool>,
    mobileNumber: Option<string>,
    userCode: Option<string>)

  /** The edit form. */
  datatype ProfileForm = ProfileForm(
    fullName: string,
    bio: string,
    mobileNumber: string,
    universityName: string,
    branchCourse: string,
    skills: string,
    competitiveExam: string,
    careerGoal: string,
    visibility: bool)

  /** The form before any profile is loaded: empty fields, visible. */
  const EmptyForm := ProfileForm("", "", "", "", "", "", "", "", true)

  /** `x || ''` on a nullable text column. */
  function OrEmpty(x: Option<string>): (r: string)
    ensures x.None? ==> r == ""
    ensures x.Some? ==> r == x.value
  {
    x.GetOr("")
  }

  /** The form for a loaded profile. */
  function FormFromProfile(row: ProfileRow): (r: ProfileForm)
    ensures r.fullName == OrEmpty(row.fullName) && r.bio == OrEmpty(row.bio)
    ensures r.mobileNumber == OrEmpty(row.mobileNumber)
    ensures r.universityName == OrEmpty(row.universityName) && r.branchCourse == OrEmpty(row.branchCourse)
    ensures r.competitiveExam == OrEmpty(row.competitiveExam) && r.careerGoal == OrEmpty(row.careerGoal)
    ensures row.skills.None? ==> r.skills == ""
    ensures row.skills.Some? ==> r.skills == Join(row.skills.value, ", ")
    ensures row.visibility.None? ==> r.visibility
    ensures row.visibility.Some? ==> r.visibility == row.visibility.value
  {
    ProfileForm(
      OrEmpty(row.fullName), OrEmpty(row.bio), OrEmpty(row.mobileNumber),
      OrEmpty(row.universityName), OrEmpty(row.branchCourse),
      match row.skills case None => "" case Some(xs) => Join(xs, ", "),
      OrEmpty(row.competitiveExam), OrEmpty(row.careerGoal),
      match row.visibility case None => true case Some(v) => v)
  }

  /** The signed-in user, as far as the page uses it. */
  datatype User = User(id: string, email: Option<string>)

  /** The record written on save. */
  datatype ProfileRecord = ProfileRecord(
    userId: string,
    fullName: string,
    email: Option<string>,
    bio: string,
    mobileNumber: string,
    universityName: string,
    branchCourse: string,
    skills: seq<string>,
    competitiveExam: string,
    careerGoal: string,
    visibility: bool)

  /** The record for the form: the form's fields as they are, the user's id
      and email, and the parsed skills. */
  function BuildRecord(user: User, form: ProfileForm): (r: ProfileRecord)
    ensures r.userId == user.id && r.email == user.email
    ensures r.fullName == form.fullName && r.bio == form.bio && r.mobileNumber == form.mobileNumber
    ensures r.universityName == form.universityName && r.branchCourse == form.branchCourse
    ensures r.competitiveExam == form.competitiveExam && r.careerGoal == form.careerGoal
    ensures r.visibility == form.visibility
    ensures r.skills == ParseSkills(form.skills)
  {
    ProfileRecord(user.id, form.fullName, user.email, form.bio, form.mobileNumber,
                  form.universityName, form.branchCourse, ParseSkills(form.skills),
                  form.competitiveExam, form.careerGoal, form.visibility)
  }

  /** Loading a profile and saving the untouched form writes back the same
      skills, as long as the stored skills are clean. */
  lemma LoadThenSaveKeepsSkills(user: User, row: ProfileRow)
    requires row.skills.Some?
    requires forall k :: 0 <= k < |row.skills.value| ==> CleanSkill(row.skills.value[k])
    ensures BuildRecord(user, FormFromProfile(row)).skills == row.skills.value
  {
    SkillsRoundTrip(row.skills.value);
  }

  /** Loading a profile and saving the untouched form writes back the stored
      text fields, with an absent one written as the empty string. */
  lemma LoadThenSaveKeepsText(user: User, row: ProfileRow)
    ensures var r := BuildRecord(user, FormFromProfile(row));
      && r.fullName == OrEmpty(row.fullName) && r.bio == OrEmpty(row.bio)
      && r.mobileNumber == OrEmpty(row.mobileNumber)
      && r.universityName == OrEmpty(row.universityName)
      && r.branchCourse == OrEmpty(row.branchCourse)
      && r.competitiveExam == OrEmpty(row.competitiveExam)
      && r.careerGoal == OrEmpty(row.careerGoal)
      && r.visibility == (row.visibility != Some(false))
  {
  }

  /** The page's state. */
  datatype ProfilePage = ProfilePage(profile: Option<ProfileRow>, form: ProfileForm, editing: bool)

  /** The answer to the profile query. */
  datatype FetchResult = FetchError(message: string) | Found(row: ProfileRow) | NotFound

  /** `fetchProfile`: an error changes nothing; a found profile fills the
      form; no profile switches to editing. */
  function FetchProfile(page: ProfilePage, result: FetchResult): (r: ProfilePage)
    ensures result.FetchError? ==> r == page
    ensures result.Found? ==> r == page.(profile := Some(result.row), form := FormFromProfile(result.row))
    ensures result.NotFound? ==> r == page.(editing := true)
  {
    match result
    case FetchError(_) => page
    case Found(row) => page.(profile := Some(row), form := FormFromProfile(row))
    case NotFound => page.(editing := true)
  }

  /** The write `handleSave` sends. */
  datatype SaveRequest =
    | UpdateProfile(userId: string, record: ProfileRecord)
    | InsertProfile(record: ProfileRecord)

  /** An update when a profile was loaded, else an insert, both of the form's record. */
  function SaveRequestFor(page: ProfilePage, user: User): (r: SaveRequest)
    ensures r.UpdateProfile? <==> page.profile.Some?
    ensures r.record == BuildRecord(user, page.form)
    ensures r.UpdateProfile? ==> r.userId == user.id
  {
    var record := BuildRecord(user, page.form);
    if page.profile.Some? then UpdateProfile(user.id, record) else InsertProfile(record)
  }

  /** The store's answer to a save. */
  datatype SaveResult = Saved | SaveFailed(message: string)

  /** What a save does: nothing without a user; otherwise the request sent,
      the page afterwards, and whether the profile is fetched again. */
  datatype SaveOutcome =
    | NotSignedIn
    | SaveDone(request: SaveRequest, page: ProfilePage, refetch: bool)

  /** `handleSave`, with the store's answer to the request as a parameter. */
  function HandleSave(page: ProfilePage, user: Option<User>, answer: SaveResult): (r: SaveOutcome)
    ensures r.NotSignedIn? <==> user.None?
    ensures r.SaveDone? ==> r.request == SaveRequestFor(page, user.value)
    ensures r.SaveDone? ==> (r.refetch <==> answer.Saved?)
    ensures r.SaveDone? && answer.Saved? ==> r.page == page.(editing := false)
    ensures r.SaveDone? && answer.SaveFailed? ==> r.page == page
  {
    match user
    case None => NotSignedIn
    case Some(u) =>
      var request := SaveRequestFor(page, u);
      match answer
      case Saved => SaveDone(request, page.(editing := false), true)
      case SaveFailed(_) => SaveDone(request, page, false)
  }
}
