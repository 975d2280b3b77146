/** The request handlers of study_site/views.py over the tables of a
    `Database`. Handlers that only read are functions of a snapshot; those
    that write are methods that update the tables step by step. The acting
    user is the authenticated user Django's session supplies. */
module Views {
  import opened Text
  import opened Models
  import opened Forms

  /** `request.user`: either anonymous or a signed-in user. */
  datatype Requester = Anonymous | SignedIn(id: UserId)

  /** Named URL patterns a handler redirects to. */
  datatype Route =
    | Dashboard
    | CourseList
    | CourseDetailRoute(course: CourseId)
    | LessonDetailRoute(lesson: LessonId)
    | TeamListRoute
    | MatchListRoute

  /** The view-model handed to a template. */
  datatype Page =
    | AddCourseForm
    | AddLessonForm(course: CourseId)
    | GradeAnswerForm(answer: AnswerId)
    | CreateTeamForm
    | CreateMatchForm
    | CourseRosterPage(course: CourseId, available: set<UserId>)
    | CourseLessonsPage(course: CourseId, lessons: set<LessonId>)
    | LessonPage(lesson: LessonId, answers: set<AnswerId>)
    | ProfilePage(user: UserId)
    | TeamListPage(teams: set<TeamId>)
    | TeamPage(team: TeamId, players: set<UserId>)
    | MatchListPage(matches: set<MatchId>)

  /** `NotFound` is the 404 of `get_object_or_404`. */
  datatype Response = Redirect(to: Route) | Render(page: Page) | NotFound

  // ---- the role gate ----

  /** `get_user_role`: an anonymous user has no `role` attribute. */
  function GetUserRole(users: map<UserId, User>, who: Requester): (r: Option<Role>)
    ensures who.Anonymous? ==> r == None
    ensures who.SignedIn? && who.id in users ==> r == Some(users[who.id].role)
  {
    match who
    case Anonymous => None
    case SignedIn(id) => if id in users then Some(users[id].role) else None
  }

  /** The test of `role_required(role)`: the user's role equals `role`. */
  predicate RoleRequired(role: Role, userRole: Option<Role>)
  {
    userRole == Some(role)
  }

  /** A gated action runs exactly for a signed-in user holding the role;
      an anonymous user never passes. */
  lemma RoleGate(users: map<UserId, User>, who: Requester, role: Role)
    ensures RoleRequired(role, GetUserRole(users, who))
            <==> who.SignedIn? && who.id in users && users[who.id].role == role
  {
  }

  /** The gate of every handler decorated with `role_required('teacher')`. */
  predicate IsTeacher(users: map<UserId, User>, actor: UserId)
  {
    RoleRequired(Teacher, GetUserRole(users, SignedIn(actor)))
  }

  // ---- handlers that only read ----

  function AvailableStudents(db: Db, c: CourseId): set<UserId>
    requires c in db.courses
  {
    set u | u in db.users && u !in db.courses[c].students
  }

  function LessonsOf(db: Db, c: CourseId): set<LessonId>
  {
    set l | l in db.lessons && db.lessons[l].course == c
  }

  /** The answers to lesson `l` written by user `u`. */
  function AnswersOf(answers: map<AnswerId, Answer>, l: LessonId, u: UserId): set<AnswerId>
  {
    set a | a in answers && answers[a].lesson == l && answers[a].student == u
  }

  /** The routed `course_detail` (the second definition): shows a course and
      all of its lessons, with no enrolment and no access check. */
  function CourseDetail(db: Db, c: CourseId): (r: Response)
    ensures c !in db.courses <==> r == NotFound
    ensures c in db.courses ==> r.Render?
    ensures r.Render? ==> r.page.CourseLessonsPage? && r.page.course == c
    ensures r.Render? ==> forall l :: l in r.page.lessons <==> l in db.lessons && db.lessons[l].course == c
  {
    if c !in db.courses then NotFound else Render(CourseLessonsPage(c, LessonsOf(db, c)))
  }

  /** `team_list`: the teams the user coaches, and no others. */
  function TeamList(db: Db, u: UserId): (r: Response)
    ensures r.Render? && r.page.TeamListPage?
    ensures forall t :: t in r.page.teams <==> t in db.teams && db.teams[t].coach == u
  {
    Render(TeamListPage(CoachedBy(db, u)))
  }

  /** Each team is listed for its coach only. */
  lemma TeamListsDisjoint(db: Db, u: UserId, v: UserId)
    requires u != v
    ensures TeamList(db, u).page.teams !! TeamList(db, v).page.teams
  {
  }

  /** Every team of a consistent database is listed for some user. */
  lemma TeamListsCoverTeams(db: Db, t: TeamId)
    requires Consistent(db) && t in db.teams
    ensures exists u :: u in db.users && t in TeamList(db, u).page.teams
  {
  }

  /** `team_detail`: a team and its `players` relation; no login needed. */
  function TeamDetail(db: Db, t: TeamId): (r: Response)
    ensures t !in db.teams <==> r == NotFound
    ensures t in db.teams ==> r == Render(TeamPage(t, db.teams[t].players))
  {
    if t !in db.teams then NotFound else Render(TeamPage(t, db.teams[t].players))
  }

  // ---- match filtering ----

  /** The conjunction of the supplied filters. Each absent field (a `None`,
      or an empty `result`) imposes no constraint. */
  predicate Satisfies(f: MatchFilterInput, m: Match)
  {
    && (f.team1.Some? ==> m.team1 == f.team1.value)
    && (f.team2.Some? ==> m.team2 == f.team2.value)
    && (f.result != "" ==> ContainsIgnoringCase(m.result, f.result))
    && (f.dateFrom.Some? ==> f.dateFrom.value <= m.date)
    && (f.dateTo.Some? ==> m.date <= f.dateTo.value)
  }

  /** The empty query is valid and keeps every match. */
  lemma NoFilterKeepsAll(teams: map<TeamId, Team>, m: Match)
    ensures MatchFilterValid(teams, NoFilter) && Satisfies(NoFilter, m)
  {
  }

  /** The result filter ignores the case of the query, of the stored
      result, and of both together. */
  lemma ResultFilterCaseBlind(f: MatchFilterInput, m: Match)
    ensures Satisfies(f.(result := Lower(f.result)), m) <==> Satisfies(f, m)
    ensures Satisfies(f, m.(result := Lower(m.result))) <==> Satisfies(f, m)
    ensures Satisfies(f.(result := Lower(f.result)), m.(result := Lower(m.result)))
            <==> Satisfies(f, m)
  {
    IgnoringCaseIsCaseBlind(m.result, f.result);
    IgnoringCaseIsCaseBlind(m.result, Lower(f.result));
    IgnoringCaseIsCaseBlind(Lower(m.result), f.result);
    if f.result != "" {
      assert |Lower(f.result)| == |f.result|;
    } else {
      assert Lower(f.result) == "";
    }
  }

  /** A match whose result contains the query verbatim passes the result filter. */
  lemma ResultFilterFindsVerbatim(f: MatchFilterInput, m: Match)
    requires f == NoFilter.(result := f.result)
    requires Contains(m.result, f.result)
    ensures Satisfies(f, m)
  {
    ContainsLower(m.result, f.result);
  }

  /** One lookup of `match_list`'s query: `team_1`, `team_2`,
      `result__icontains`, `date__gte` or `date__lte`. */
  datatype Lookup =
    | Team1Is(team1: TeamId)
    | Team2Is(team2: TeamId)
    | ResultContains(text: string)
    | DateFrom(from: Date)
    | DateTo(to: Date)

  predicate Holds(q: Lookup, m: Match)
  {
    match q
    case Team1Is(t) => m.team1 == t
    case Team2Is(t) => m.team2 == t
    case ResultContains(p) => ContainsIgnoringCase(m.result, p)
    case DateFrom(d) => m.date >= d
    case DateTo(d) => m.date <= d
  }

  /** `QuerySet.filter`: keeps exactly the matches the lookup holds for. */
  method Filter(matches: set<MatchId>, all: map<MatchId, Match>, q: Lookup)
    returns (r: set<MatchId>)
    requires matches <= all.Keys
    ensures forall m :: m in r <==> m in matches && Holds(q, all[m])
  {
    r := set m | m in matches && Holds(q, all[m]);
  }

  /** `match_list`: starts from all matches and, when the filter form is
      valid, narrows them by each supplied field in turn. */
  method MatchList(db: Database, f: MatchFilterInput) returns (resp: Response)
    ensures resp.Render? && resp.page.MatchListPage?
    ensures MatchFilterValid(db.teams, f) ==>
      forall m :: m in resp.page.matches <==> m in db.matches && Satisfies(f, db.matches[m])
    ensures !MatchFilterValid(db.teams, f) ==> resp.page.matches == db.matches.Keys
  {
    var all := db.matches;
    var matches := all.Keys;
    if MatchFilterValid(db.teams, f) {
      if f.team1.Some? {
        matches := Filter(matches, all, Team1Is(f.team1.value));
      }
      if f.team2.Some? {
        matches := Filter(matches, all, Team2Is(f.team2.value));
      }
      if f.result != "" {
        matches := Filter(matches, all, ResultContains(f.result));
      }
      if f.dateFrom.Some? {
        matches := Filter(matches, all, DateFrom(f.dateFrom.value));
      }
      if f.dateTo.Some? {
        matches := Filter(matches, all, DateTo(f.dateTo.value));
      }
    }
    resp := Render(MatchListPage(matches));
  }

  // ---- handlers that write ----

  /** `add_course`: a teacher creates a course, and becomes its teacher
      whatever the form's `teacher` field said. */
  method AddCourse(db: Database, actor: UserId, req: Request<CourseInput>) returns (resp: Response)
    requires db.Valid()
    modifies db
    ensures db.Valid()
    ensures !IsTeacher(old(db.users), actor) ==> resp == Redirect(Dashboard) && unchanged(db)
    ensures IsTeacher(old(db.users), actor) && !(req.Post? && CourseFormValid(old(db.users), req.form)) ==>
              resp == Render(AddCourseForm) && unchanged(db)
    ensures IsTeacher(old(db.users), actor) && req.Post? && CourseFormValid(old(db.users), req.form) ==>
              var id := FreshId(old(db.courses).Keys);
              && resp == Redirect(CourseList)
              && id !in old(db.courses)
              && db.courses == old(db.courses)[id := Course(req.form.title, req.form.description, actor, {})]
              && |db.courses| == |old(db.courses)| + 1
              && db.Snapshot() == old(db.Snapshot()).(courses := db.courses)
  {
    if !IsTeacher(db.users, actor) {
      return Redirect(Dashboard);
    }
    if req.Get? || !CourseFormValid(db.users, req.form) {
      return Render(AddCourseForm);
    }
    var course := CourseFromForm(req.form);
    course := course.(teacher := actor);
    var id := FreshId(db.courses.Keys);
    db.courses := db.courses[id := course];
    resp := Redirect(CourseList);
  }

  /** `add_lesson`: any teacher, not only the course's own, adds a lesson;
      its course is the one named in the URL. */
  method AddLesson(db: Database, actor: UserId, courseId: CourseId, req: Request<LessonInput>, now: Date)
    returns (resp: Response)
    requires db.Valid()
    modifies db
    ensures db.Valid()
    ensures !IsTeacher(old(db.users), actor) ==> resp == Redirect(Dashboard) && unchanged(db)
    ensures IsTeacher(old(db.users), actor) && courseId !in old(db.courses) ==> resp == NotFound && unchanged(db)
    ensures IsTeacher(old(db.users), actor) && courseId in old(db.courses)
            && !(req.Post? && LessonFormValid(req.form)) ==>
              resp == Render(AddLessonForm(courseId)) && unchanged(db)
    ensures IsTeacher(old(db.users), actor) && courseId in old(db.courses)
            && req.Post? && LessonFormValid(req.form) ==>
              var id := FreshId(old(db.lessons).Keys);
              && resp == Redirect(CourseDetailRoute(courseId))
              && db.lessons == old(db.lessons)[id := Lesson(courseId, req.form.title, req.form.description,
                                                            now, req.form.task)]
              && db.Snapshot() == old(db.Snapshot()).(lessons := db.lessons)
              && CourseDetail(db.Snapshot(), courseId).page.lessons
                 == CourseDetail(old(db.Snapshot()), courseId).page.lessons + {id}
  {
    if !IsTeacher(db.users, actor) {
      return Redirect(Dashboard);
    }
    if courseId !in db.courses {
      return NotFound;
    }
    if req.Get? || !LessonFormValid(req.form) {
      return Render(AddLessonForm(courseId));
    }
    var lesson := LessonFromForm(req.form, courseId, now);
    var id := FreshId(db.lessons.Keys);
    db.lessons := db.lessons[id := lesson];
    resp := Redirect(CourseDetailRoute(courseId));
  }

  /** `grade_answer`: any teacher overwrites the grade of any answer;
      nothing else on the answer, and no other answer, changes. */
  method GradeAnswer(db: Database, actor: UserId, answerId: AnswerId, req: Request<GradeInput>)
    returns (resp: Response)
    requires db.Valid()
    modifies db
    ensures db.Valid()
    ensures !IsTeacher(old(db.users), actor) ==> resp == Redirect(Dashboard) && unchanged(db)
    ensures IsTeacher(old(db.users), actor) && answerId !in old(db.answers) ==> resp == NotFound && unchanged(db)
    ensures IsTeacher(old(db.users), actor) && answerId in old(db.answers) && req.Get? ==>
              resp == Render(GradeAnswerForm(answerId)) && unchanged(db)
    ensures IsTeacher(old(db.users), actor) && answerId in old(db.answers) && req.Post? ==>
              && resp == Redirect(LessonDetailRoute(old(db.answers)[answerId].lesson))
              && db.answers == old(db.answers)[answerId := old(db.answers)[answerId].(grade := req.form.grade)]
              && db.Snapshot() == old(db.Snapshot()).(answers := db.answers)
  {
    if !IsTeacher(db.users, actor) {
      return Redirect(Dashboard);
    }
    if answerId !in db.answers {
      return NotFound;
    }
    if req.Get? {
      return Render(GradeAnswerForm(answerId));
    }
    var answer := ApplyGrade(db.answers[answerId], req.form);
    db.answers := db.answers[answerId := answer];
    resp := Redirect(LessonDetailRoute(answer.lesson));
  }

  /** `lesson_detail`: shows the caller's own answers to the lesson and
      records a submitted answer as the caller's, ungraded. Any signed-in
      user may answer, whatever the role. */
  method LessonDetail(db: Database, actor: UserId, lessonId: LessonId, req: Request<AnswerInput>, now: Date)
    returns (resp: Response)
    requires db.Valid() && actor in db.users
    modifies db
    ensures db.Valid()
    ensures lessonId !in old(db.lessons) ==> resp == NotFound && unchanged(db)
    ensures lessonId in old(db.lessons) && !(req.Post? && AnswerFormValid(req.form)) ==>
              && resp.Render? && resp.page.LessonPage? && resp.page.lesson == lessonId
              && (forall a :: a in resp.page.answers <==>
                    a in old(db.answers) && old(db.answers)[a].lesson == lessonId
                    && old(db.answers)[a].student == actor)
              && unchanged(db)
    ensures lessonId in old(db.lessons) && req.Post? && AnswerFormValid(req.form) ==>
              var id := FreshId(old(db.answers).Keys);
              && resp == Redirect(LessonDetailRoute(lessonId))
              && db.answers == old(db.answers)[id := Answer(actor, lessonId, req.form.content, now, None)]
              && db.Snapshot() == old(db.Snapshot()).(answers := db.answers)
              && AnswersOf(db.answers, lessonId, actor) == AnswersOf(old(db.answers), lessonId, actor) + {id}
              && (forall u :: u != actor ==> AnswersOf(db.answers, lessonId, u) == AnswersOf(old(db.answers), lessonId, u))
  {
    if lessonId !in db.lessons {
      return NotFound;
    }
    var mine := AnswersOf(db.answers, lessonId, actor);
    if req.Get? || !AnswerFormValid(req.form) {
      return Render(LessonPage(lessonId, mine));
    }
    var answer := AnswerFromForm(req.form, actor, lessonId, now);
    var id := FreshId(db.answers.Keys);
    db.answers := db.answers[id := answer];
    resp := Redirect(LessonDetailRoute(lessonId));
  }

  /** A POST to a roster view: `Some(s)` when the form carries a `student`
      field holding the user id `s`, `None` when it carries none. */
  type Enrolment = Request<Option<UserId>>

  /** The first `course_detail`, which the second definition of the same name
      replaces, so no URL reaches it. It enrols any user, on behalf of any
      signed-in user: neither role nor ownership is checked. */
  method CourseDetailEnrol(db: Database, courseId: CourseId, req: Enrolment) returns (resp: Response)
    requires db.Valid()
    modifies db
    ensures db.Valid()
    ensures courseId !in old(db.courses) ==> resp == NotFound && unchanged(db)
    ensures courseId in old(db.courses) && req.Post? && req.form.Some? && req.form.value !in old(db.users) ==>
              resp == NotFound && unchanged(db)
    ensures courseId in old(db.courses) && req.Post? && req.form.Some? && req.form.value in old(db.users) ==>
              && resp == Redirect(CourseDetailRoute(courseId))
              && db.Snapshot() == old(db.Snapshot()).(courses := AddStudent(old(db.courses), courseId, req.form.value))
    ensures courseId in old(db.courses) && !(req.Post? && req.form.Some?) ==>
              resp == Render(CourseRosterPage(courseId, AvailableStudents(old(db.Snapshot()), courseId)))
              && unchanged(db)
  {
    if courseId !in db.courses {
      return NotFound;
    }
    var available := AvailableStudents(db.Snapshot(), courseId);
    if req.Post? && req.form.Some? {
      var student := req.form.value;
      if student !in db.users {
        return NotFound;
      }
      db.courses := AddStudent(db.courses, courseId, student);
      return Redirect(CourseDetailRoute(courseId));
    }
    resp := Render(CourseRosterPage(courseId, available));
  }

  /** `add_student_to_course` (no URL routes to it): only the course's own
      teacher can enrol; anyone else is sent back to the course page. */
  method AddStudentToCourse(db: Database, actor: UserId, courseId: CourseId, req: Enrolment)
    returns (resp: Response)
    requires db.Valid()
    modifies db
    ensures db.Valid()
    ensures !IsTeacher(old(db.users), actor) ==> resp == Redirect(Dashboard) && unchanged(db)
    ensures IsTeacher(old(db.users), actor) && courseId !in old(db.courses) ==> resp == NotFound && unchanged(db)
    ensures IsTeacher(old(db.users), actor) && courseId in old(db.courses)
            && actor != old(db.courses)[courseId].teacher ==>
              resp == Redirect(CourseDetailRoute(courseId)) && unchanged(db)
    ensures db.courses != old(db.courses) ==>
              IsTeacher(old(db.users), actor) && courseId in old(db.courses)
              && actor == old(db.courses)[courseId].teacher
    ensures IsTeacher(old(db.users), actor) && courseId in old(db.courses)
            && actor == old(db.courses)[courseId].teacher ==>
              && (req.Post? && req.form.Some? && req.form.value !in old(db.users) ==>
                    resp == NotFound && unchanged(db))
              && (req.Post? && req.form.Some? && req.form.value in old(db.users) ==>
                    resp == Redirect(CourseDetailRoute(courseId))
                    && db.Snapshot() == old(db.Snapshot()).(courses := AddStudent(old(db.courses), courseId, req.form.value)))
              && (!(req.Post? && req.form.Some?) ==>
                    resp == Render(CourseRosterPage(courseId, AvailableStudents(old(db.Snapshot()), courseId)))
                    && unchanged(db))
  {
    if !IsTeacher(db.users, actor) {
      return Redirect(Dashboard);
    }
    if courseId !in db.courses {
      return NotFound;
    }
    if actor != db.courses[courseId].teacher {
      return Redirect(CourseDetailRoute(courseId));
    }
    if req.Post? && req.form.Some? {
      var student := req.form.value;
      if student !in db.users {
        return NotFound;
      }
      db.courses := AddStudent(db.courses, courseId, student);
      return Redirect(CourseDetailRoute(courseId));
    }
    var available := AvailableStudents(db.Snapshot(), courseId);
    resp := Render(CourseRosterPage(courseId, available));
  }

  /** The get-or-create step of `profile_view`: the caller's profile is
      created, empty, on first visit and reused afterwards. */
  method ProfileView(db: Database, actor: UserId) returns (resp: Response, created: bool)
    requires db.Valid() && actor in db.users
    modifies db
    ensures db.Valid()
    ensures resp == Render(ProfilePage(actor))
    ensures created <==> actor !in old(db.profiles)
    ensures db.profiles == if created then old(db.profiles)[actor := Profile(None, None)] else old(db.profiles)
    ensures db.Snapshot() == old(db.Snapshot()).(profiles := db.profiles)
  {
    created := actor !in db.profiles;
    if created {
      db.profiles := db.profiles[actor := Profile(None, None)];
    }
    resp := Render(ProfilePage(actor));
  }

  /** Every user in `players` gains team `id` in `User.teams`. */
  function JoinTeam(users: map<UserId, User>, id: TeamId, players: set<UserId>): map<UserId, User>
  {
    map u | u in users ::
      if u in players then users[u].(teams := users[u].teams + {id}) else users[u]
  }

  /** The tables after `create_team` has saved `team` under `id` and added
      `id` to the `User.teams` of each of its players. */
  function WithTeam(db: Db, id: TeamId, team: Team): Db
  {
    db.(users := JoinTeam(db.users, id, team.players), teams := db.teams[id := team])
  }

  /** Creating a team keeps referential integrity, and keeps the two team
      relations in agreement if they agreed. */
  lemma WithTeamKeepsInvariants(db: Db, id: TeamId, team: Team)
    requires Consistent(db) && id !in db.teams
    requires team.coach in db.users && team.players <= db.users.Keys
    ensures Consistent(WithTeam(db, id, team))
    ensures Mirrored(db) ==> Mirrored(WithTeam(db, id, team))
  {
  }

  /** Creating a team keeps referential integrity, records every player on
      both sides, keeps the two team relations in agreement if they agreed,
      and adds the team to its coach's team list only. */
  lemma WithTeamFacts(db: Db, id: TeamId, team: Team)
    requires Consistent(db) && id !in db.teams
    requires team.coach in db.users && team.players <= db.users.Keys
    ensures Consistent(WithTeam(db, id, team))
    ensures Mirrored(db) ==> Mirrored(WithTeam(db, id, team))
    ensures forall p :: p in team.players ==>
              p in WithTeam(db, id, team).teams[id].players && id in WithTeam(db, id, team).users[p].teams
    ensures TeamList(WithTeam(db, id, team), team.coach).page.teams
            == TeamList(db, team.coach).page.teams + {id}
    ensures forall v :: v != team.coach ==>
              TeamList(WithTeam(db, id, team), v).page.teams == TeamList(db, v).page.teams
    ensures TeamDetail(WithTeam(db, id, team), id) == Render(TeamPage(id, team.players))
  {
    WithTeamKeepsInvariants(db, id, team);
  }

  /** The loop of `create_team`: `player.teams.add(team)` for each chosen
      player in turn. */
  method AddTeamToPlayers(db: Database, id: TeamId, players: set<UserId>)
    requires players <= db.users.Keys
    modifies db
    ensures db.Snapshot() == old(db.Snapshot()).(users := JoinTeam(old(db.users), id, players))
  {
    ghost var users0 := db.users;
    var pending := players;
    while pending != {}
      invariant pending <= players
      invariant db.Snapshot() == old(db.Snapshot()).(users := db.users)
      invariant db.users.Keys == users0.Keys
      invariant forall u :: u in users0 ==>
                  db.users[u] == if u in players - pending
                                 then users0[u].(teams := users0[u].teams + {id})
                                 else users0[u]
      decreases pending
    {
      var player :| player in pending;
      db.users := db.users[player := db.users[player].(teams := db.users[player].teams + {id})];
      pending := pending - {player};
    }
    assert db.users == JoinTeam(users0, id, players);
  }

  /** `create_team`: a teacher creates a team and becomes its coach; the
      chosen players are saved in `Team.players`, then added one by one to
      each player's own `User.teams`. */
  method CreateTeam(db: Database, actor: UserId, req: Request<TeamInput>) returns (resp: Response)
    requires db.Valid()
    modifies db
    ensures db.Valid()
    ensures Mirrored(old(db.Snapshot())) ==> Mirrored(db.Snapshot())
    ensures !IsTeacher(old(db.users), actor) ==> resp == Redirect(Dashboard) && unchanged(db)
    ensures IsTeacher(old(db.users), actor) && !(req.Post? && TeamFormValid(old(db.users), req.form)) ==>
              resp == Render(CreateTeamForm) && unchanged(db)
    ensures IsTeacher(old(db.users), actor) && req.Post? && TeamFormValid(old(db.users), req.form) ==>
              var id := FreshId(old(db.teams).Keys);
              && resp == Redirect(TeamListRoute)
              && id !in old(db.teams)
              && db.Snapshot() == WithTeam(old(db.Snapshot()), id,
                                           Team(req.form.name, req.form.sportType, actor, req.form.players))
  {
    if !IsTeacher(db.users, actor) {
      return Redirect(Dashboard);
    }
    if req.Get? || !TeamFormValid(db.users, req.form) {
      return Render(CreateTeamForm);
    }
    var f := req.form;
    ghost var before := db.Snapshot();
    ghost var created := Team(f.name, f.sportType, actor, f.players);
    var id := FreshId(db.teams.Keys);
    var team := Team(f.name, f.sportType, actor, {});
    db.teams := db.teams[id := team];
    db.teams := db.teams[id := team.(players := f.players)];
    AddTeamToPlayers(db, id, f.players);
    assert db.Snapshot() == WithTeam(before, id, created);
    WithTeamKeepsInvariants(before, id, created);
    resp := Redirect(TeamListRoute);
  }

  /** `create_match`: any signed-in user schedules a match between two
      existing teams, possibly the same team twice. */
  method CreateMatch(db: Database, req: Request<MatchInput>) returns (resp: Response)
    requires db.Valid()
    modifies db
    ensures db.Valid()
    ensures !(req.Post? && MatchFormValid(old(db.teams), req.form)) ==>
              resp == Render(CreateMatchForm) && unchanged(db)
    ensures req.Post? && MatchFormValid(old(db.teams), req.form) ==>
              var id := FreshId(old(db.matches).Keys);
              && resp == Redirect(MatchListRoute)
              && db.matches == old(db.matches)[id := MatchFromForm(req.form)]
              && db.Snapshot() == old(db.Snapshot()).(matches := db.matches)
  {
    if req.Get? || !MatchFormValid(db.teams, req.form) {
      return Render(CreateMatchForm);
    }
    var id := FreshId(db.matches.Keys);
    db.matches := db.matches[id := MatchFromForm(req.form)];
    resp := Redirect(MatchListRoute);
  }
}
