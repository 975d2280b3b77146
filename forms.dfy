/** The forms of study_site/forms.py. Each form is an input record holding
    exactly the fields the form exposes, so a form can never set a field it
    does not list; its validity rules are a predicate over the cleaned
    values (required, length limits, choice and queryset membership). */
module Forms {
  import opened Models

  /** A request to a form view: GET shows the form, POST submits it. */
  datatype Request<T> = Get | Post(form: T)

  // ---- CustomUserCreationForm: the role choice ----

  /** The stored value of each role, as in `User.ROLE_CHOICES`. */
  function RoleValue(r: Role): string
  {
    match r
    case Teacher => "teacher"
    case Student => "student"
  }

  /** `User.ROLE_CHOICES`: (stored value, label) pairs. */
  const RoleChoices: seq<(string, string)> := [("teacher", "Teacher"), ("student", "Student")]

  /** Cleaning of the required `role` ChoiceField: the submitted value must
      be one of the stored values in `RoleChoices`. */
  function ParseRoleChoice(value: string): (r: Option<Role>)
    ensures r.Some? <==> exists i :: 0 <= i < |RoleChoices| && RoleChoices[i].0 == value
    ensures r.Some? ==> RoleValue(r.value) == value
  {
    assert RoleChoices[0].0 == "teacher" && RoleChoices[1].0 == "student";
    if value == "teacher" then Some(Teacher)
    else if value == "student" then Some(Student)
    else None
  }

  /** Every role is offered, and is read back as itself. */
  lemma RoleChoiceRoundTrip(r: Role)
    ensures ParseRoleChoice(RoleValue(r)) == Some(r)
    ensures exists i :: 0 <= i < |RoleChoices| && RoleChoices[i].0 == RoleValue(r)
  {
  }

  /** A role choice cannot be the empty string, so the required field
      rejects an empty submission. */
  lemma EmptyRoleRejected()
    ensures ParseRoleChoice("") == None
  {
  }

  // ---- field rules shared by the model forms ----

  /** A required text field: non-empty after cleaning. */
  predicate Required(s: string) { |s| > 0 }

  /** A required `CharField(max_length = max)`. */
  predicate RequiredChars(s: string, max: nat) { 0 < |s| <= max }

  const CourseTitleMax: nat := 100
  const LessonTitleMax: nat := 200
  const TeamNameMax: nat := 100
  const SportTypeMax: nat := 100
  const MatchResultMax: nat := 100
  const MatchLocationMax: nat := 200

  // ---- CourseForm: title, description, teacher ----

  datatype CourseInput = CourseInput(title: string, description: string, teacher: UserId)

  /** `teacher` is a required choice over all users, whatever their role. */
  predicate CourseFormValid(users: map<UserId, User>, f: CourseInput)
  {
    RequiredChars(f.title, CourseTitleMax) && Required(f.description) && f.teacher in users
  }

  /** `form.save(commit=False)`: an unsaved course carrying the form's
      teacher and an empty roster (students are not a form field). */
  function CourseFromForm(f: CourseInput): Course
  {
    Course(f.title, f.description, f.teacher, {})
  }

  // ---- LessonForm: title, description, task ----

  datatype LessonInput = LessonInput(title: string, description: string, task: Option<string>)

  predicate LessonFormValid(f: LessonInput)
  {
    RequiredChars(f.title, LessonTitleMax) && Required(f.description)
  }

  /** The form has no course field: the caller supplies the course, and the
      creation time comes from `auto_now_add`. */
  function LessonFromForm(f: LessonInput, course: CourseId, now: Date): Lesson
  {
    Lesson(course, f.title, f.description, now, f.task)
  }

  // ---- AnswerForm: content ----

  datatype AnswerInput = AnswerInput(content: string)

  predicate AnswerFormValid(f: AnswerInput) { Required(f.content) }

  /** The form has only `content`: author and lesson come from the caller,
      and the grade starts out null. */
  function AnswerFromForm(f: AnswerInput, student: UserId, lesson: LessonId, now: Date): (a: Answer)
    ensures a.grade == None
    ensures a.student == student && a.lesson == lesson && a.content == f.content
  {
    Answer(student, lesson, f.content, now, None)
  }

  // ---- GradeForm: grade ----

  /** The nullable `grade` field; an empty submission cleans to null. */
  datatype GradeInput = GradeInput(grade: Option<int>)

  /** `GradeForm(instance = answer).save()`: only `grade` is written. */
  function ApplyGrade(a: Answer, f: GradeInput): (r: Answer)
    ensures r.grade == f.grade
    ensures r.student == a.student && r.lesson == a.lesson
    ensures r.content == a.content && r.createdAt == a.createdAt
  {
    a.(grade := f.grade)
  }

  /** Re-grading overwrites: only the last grade submitted survives. */
  lemma RegradeOverwrites(a: Answer, first: GradeInput, second: GradeInput)
    ensures ApplyGrade(ApplyGrade(a, first), second) == ApplyGrade(a, second)
  {
  }

  // ---- TeamForm: name, sport_type, players ----

  /** `coach` is not a form field. */
  datatype TeamInput = TeamInput(name: string, sportType: string, players: set<UserId>)

  /** `players` is a required multiple choice over the users whose role is
      student, so at least one student must be chosen. */
  predicate TeamFormValid(users: map<UserId, User>, f: TeamInput)
  {
    && RequiredChars(f.name, TeamNameMax)
    && RequiredChars(f.sportType, SportTypeMax)
    && f.players != {}
    && (forall p :: p in f.players ==> p in users && users[p].role == Student)
  }

  /** No teacher can be chosen as a player. */
  lemma TeamFormExcludesTeachers(users: map<UserId, User>, f: TeamInput, p: UserId)
    requires TeamFormValid(users, f) && p in users && users[p].role == Teacher
    ensures p !in f.players
  {
  }

  // ---- MatchForm: team_1, team_2, date, result, location ----

  datatype MatchInput = MatchInput(team1: TeamId, team2: TeamId, date: Date,
                                   result: string, location: string)

  /** Both teams must exist; nothing requires them to differ. */
  predicate MatchFormValid(teams: map<TeamId, Team>, f: MatchInput)
  {
    && f.team1 in teams && f.team2 in teams
    && RequiredChars(f.result, MatchResultMax)
    && RequiredChars(f.location, MatchLocationMax)
  }

  function MatchFromForm(f: MatchInput): Match
  {
    Match(f.team1, f.team2, f.date, f.result, f.location)
  }

  // ---- MatchFilterForm: five optional fields ----

  /** An empty `result` stands for the field left blank. */
  datatype MatchFilterInput = MatchFilterInput(team1: Option<TeamId>, team2: Option<TeamId>,
                                               result: string,
                                               dateFrom: Option<Date>, dateTo: Option<Date>)

  const NoFilter: MatchFilterInput := MatchFilterInput(None, None, "", None, None)

  /** Every field is optional; a chosen team must exist. */
  predicate MatchFilterValid(teams: map<TeamId, Team>, f: MatchFilterInput)
  {
    (f.team1.Some? ==> f.team1.value in teams) && (f.team2.Some? ==> f.team2.value in teams)
  }
}
