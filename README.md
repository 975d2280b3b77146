# study_site in Dafny

A Dafny model of the domain logic of the `study_site` Django application.
Teachers create courses and lessons. Students submit answers, and teachers
grade them. Teachers also form sports teams, and any signed-in user
schedules and filters matches.

The ORM is modelled as in-memory state. `Models.Database` is a class whose
fields are the tables, each a map from primary key to record. A
many-to-many relation is a set of keys stored on the side that declares
it: `Course.students`, `Team.players` and `User.teams`. `Models.Db` is a
value snapshot of all seven tables, and `Database.Snapshot()` returns it.

- `text.dfy` (`Text`): ASCII lower-casing and substring search, which
  together model the `icontains` lookup.
- `models.dfy` (`Models`): the records of `models.py`:
  - `Consistent`, the referential-integrity invariant every handler keeps;
  - `Mirrored`, agreement between `Team.players` and `User.teams`, which
    the schema does not require;
  - the CASCADE deletes, as functions on a snapshot;
  - the `__str__` formats, and a round trip for the team label;
  - key assignment (`FreshId`: one above every key in use).
- `forms.dfy` (`Forms`): one input record per form, holding exactly the
  fields the form exposes, plus a validity predicate for each. No form can
  set a field it does not list:
  - `AnswerForm` cannot set the student, lesson or grade;
  - `GradeForm` can set only the grade;
  - `TeamForm` has no coach field;
  - `LessonForm` has no course field.
- `views.dfy` (`Views`): the handlers.
  - Handlers that only read are functions of a snapshot: `course_detail`
    (the routed one), `team_list`, `team_detail`, `get_user_role` and the
    test inside `role_required`.
  - Handlers that write are methods with `modifies db`. Each one states
    its response and the whole new state in terms of the old state.
  - `match_list` is a method that only reads. Like the source, it narrows
    the match set by five conditional filters in turn. It is proved equal
    to the conjunction `Satisfies`.

Handler results are `Redirect(route)`, `Render(page)` or `NotFound` (the
404 raised by `get_object_or_404`). A rendered page carries its
view-model: the lesson's answers, the course's lessons, and so on.

Which code is live:
- `course_detail` is defined twice in `views.py`. The second definition
  replaces the first, and `urls.py` routes to it. `Views.CourseDetail`
  models that second, read-only body.
- `Views.CourseDetailEnrol` models the first body. Nothing reaches it. It
  enrols any existing user, with no role or ownership check.
- No URL routes `add_student_to_course` either. `Views.AddStudentToCourse`
  models it. It enrols only when the acting user is teacher of that same
  course.

Behaviour of the code a reader might not expect, which the model keeps:
- Grading may overwrite an existing grade. It may also clear the grade
  back to null, because `GradeForm.grade` is a nullable field.
- Any teacher can grade any answer, and any teacher can add lessons to any
  course.
- Any signed-in user can submit an answer, teachers included.
- A match may pair a team with itself.
- `Course.teacher` and `CourseForm.teacher` accept users of either role.

## Model

| member | source | states |
|---|---|---|
| Views.GetUserRole | study_site/views.py:11-12 | an anonymous requester has no role (`None`); a signed-in user's role is the stored one |
| Views.RoleGate | study_site/views.py:14-22 | the role gate passes iff the requester is signed in and holds exactly the required role; an anonymous requester is always refused |
| Views.AddCourse | study_site/views.py:86-98 | non-teachers are redirected to the dashboard and nothing changes; a GET or an invalid form renders the form and nothing changes; a valid form adds exactly one course under a fresh key, with the acting user as teacher whatever the form's `teacher` said and an empty roster; no other table changes |
| Views.AddLesson | study_site/views.py:127-142 | gate, then 404 for an unknown course, then a new lesson whose course is the one in the URL, stamped with the current time; any teacher may add to any course; the course page then lists exactly one more lesson |
| Views.GradeAnswer | study_site/views.py:109-125 | any teacher, owner of the course or not, sets the grade of the one target answer (overwriting it, possibly to null); no other field of that answer and no other answer changes; 404 for an unknown answer |
| Views.CourseDetail | study_site/views.py:144-148 | the routed course page: 404 for an unknown course, otherwise exactly the lessons whose course is this one |
| Views.LessonDetail | study_site/views.py:150-170 | 404 for an unknown lesson; the page shows exactly the caller's own answers to that lesson; a valid submission adds one answer whose student is the caller, whose lesson is the target and whose grade is null; no one else's answer list changes |
| Views.CourseDetailEnrol | study_site/views.py:67-83 | the shadowed first `course_detail`: with no role or ownership check, a POST naming an existing user's id adds that user to the roster, and 404 for an id no user has; otherwise renders the users not yet enrolled |
| Views.AddStudentToCourse | study_site/views.py:172-191 | the roster changes only if the actor is a teacher and the course's own teacher; a non-owner is sent back to the course page with nothing changed; enrolment is the same set insert, with 404 for an id no user has |
| Views.ProfileView | study_site/views.py:194-196 | get-or-create: a profile is created, empty, exactly when the caller has none; otherwise the existing one is kept; no other table changes |
| Views.CreateTeam | study_site/views.py:209-229 | gate and form validity as for courses; a valid form saves a team under a fresh key with the acting user as coach and the chosen players, then adds the team to each player's own team set; keeps integrity, and keeps the two team relations in agreement if they agreed before |
| Views.AddTeamToPlayers | study_site/views.py:221-222 | the per-player loop adds the team to each chosen player's `User.teams`, changes no other user, and touches no other table |
| Views.WithTeamKeepsInvariants | study_site/views.py:215-222 | saving a team under an unused key with an existing coach and existing players keeps integrity, and keeps `Team.players` and `User.teams` in agreement if they agreed |
| Views.WithTeamFacts | study_site/views.py:215-222 | after team creation, every chosen player is in `team.players` and has the team in `player.teams`; integrity and agreement of the two relations are kept; the team appears in its coach's team list and in no other user's; the team page shows exactly the chosen players |
| Views.Filter | study_site/views.py:240-248 | `matches.filter(lookup)`: the result is exactly the given matches for which the lookup (`team_1`, `team_2`, `result__icontains`, `date__gte`, `date__lte`) holds |
| Views.MatchList | study_site/views.py:231-250 | with a valid filter form, the result is exactly the matches satisfying every supplied filter (team 1, team 2, case-insensitive result substring, date from, date to, all inclusive); with an invalid form, all matches |
| Views.NoFilterKeepsAll | study_site/forms.py:80-106 | an empty query is a valid filter form and every match satisfies it |
| Views.ResultFilterCaseBlind | study_site/views.py:243-244 | the result filter gives the same answer when either the query or the stored result is lower-cased |
| Views.ResultFilterFindsVerbatim | study_site/views.py:243-244 | a match whose result contains the query exactly as typed passes the result filter |
| Views.CreateMatch | study_site/views.py:252-261 | any signed-in user adds exactly the submitted match when both teams exist and the text fields are filled within their limits; nothing requires the two teams to differ |
| Views.TeamList | study_site/views.py:263-266 | the listed teams are exactly those whose coach is the user |
| Views.TeamListsDisjoint | study_site/views.py:265 | no team is listed for two different users |
| Views.TeamListsCoverTeams | study_site/models.py:69 | in a consistent database every team is listed for some existing user, its coach |
| Views.TeamDetail | study_site/views.py:268-272 | 404 for an unknown team, otherwise the team's `players` relation |
| Models.FreshId | study_site/views.py:94 | the key given to a saved row is not the key of any existing row (it is above all of them) |
| Models.AddStudent | study_site/views.py:77 | `course.students.add`: the course's roster gains the student; the set of courses and every other course are unchanged |
| Models.AddStudentIdempotent | study_site/views.py:183 | adding a student twice gives the same courses as adding once |
| Models.AddEnrolledStudent | study_site/models.py:51 | adding a student already on the roster changes nothing |
| Models.RelationsIndependent | study_site/models.py:23 | a consistent database can have a player listed in `Team.players` without the team in that player's `User.teams`: the schema does not tie the two relations |
| Models.SelfMatchConsistent | study_site/models.py:76-77 | a match with both sides the same team keeps the database consistent |
| Models.DeleteLesson | study_site/models.py:57-58 | deleting a lesson removes exactly it and the answers referring to it, touches no other table, and keeps integrity |
| Models.DeleteCourse | study_site/models.py:37 | deleting a course removes exactly it, its lessons and those lessons' answers; every surviving course, lesson and answer keeps its value, no other table changes, and integrity is kept |
| Models.DeleteTeam | study_site/models.py:76-77 | deleting a team removes exactly it, the matches it plays in and its rows in every user's team set; surviving teams and matches keep their values; keeps integrity and agreement of the two team relations |
| Models.DeleteUser | study_site/models.py:23-70 | deleting a user removes exactly: the user and profile; the courses taught, their lessons and those lessons' answers; the user's own answers; the teams coached and their matches; the user from every course roster and team's players; the deleted teams from every user's team set. Every other row of every table keeps its value |
| Models.DeleteUserConsistent | study_site/models.py:23-70 | deleting a user leaves no dangling foreign key or many-to-many element |
| Models.DeleteUserMirrored | study_site/models.py:23-70 | deleting a user keeps `Team.players` and `User.teams` in agreement if they agreed |
| Models.ProfileLabelInjective | study_site/models.py:32-33 | "Profile of <username>": equal labels mean equal usernames |
| Models.TeamLabelRoundTrip | study_site/models.py:72-73 | "<name> (<sport_type>)": when the sport type holds no '(', the label reads back as the team's name and sport type |
| Models.MatchLabelNames | study_site/models.py:82-83 | "<team_1> vs <team_2> on <date>" contains both team names and the date text |
| Models.AnswerLabelNames | study_site/models.py:63-64 | "Answer by <username> for <lesson title>" contains the author and the lesson title |
| Forms.ParseRoleChoice | study_site/forms.py:6-11 | the registration role is accepted iff it is a stored value of `ROLE_CHOICES`, and then it is read as the role with that value |
| Forms.RoleChoiceRoundTrip | study_site/models.py:6-12 | every role is offered by `ROLE_CHOICES` and reads back as itself |
| Forms.EmptyRoleRejected | study_site/forms.py:7 | the required role field rejects an empty submission |
| Forms.AnswerFromForm | study_site/forms.py:43-46 | an answer built from the form takes only `content` from it; student and lesson come from the caller and the grade is null |
| Forms.ApplyGrade | study_site/forms.py:51-54 | saving the grade form writes the grade and leaves content, student, lesson and creation time as they were |
| Forms.RegradeOverwrites | study_site/views.py:115-117 | grading twice leaves only the second grade |
| Forms.TeamFormExcludesTeachers | study_site/forms.py:64-67 | a valid team form never has a teacher among its players |
| Text.ContainsLower | study_site/views.py:244 | a substring found as typed is also found by the case-insensitive test |
| Text.IgnoringCaseIsCaseBlind | study_site/views.py:244 | the case-insensitive substring test gives the same answer after lower-casing either side |

## Left out

- Sessions and authentication are Django's auth subsystem, which is not
  part of this model. This covers `login_view`, `register_view`,
  `logout_view` (`urls.py` routes `LogoutView`), `login_required` and
  password hashing.
  - The acting user is a parameter: an existing user id.
  - `Views.LessonDetail` and `Views.ProfileView` require that id to be in
    the users table, as an authenticated `request.user` always is.
  - Of `CustomUserCreationForm`, only the role choice is modelled.
  - Password matching is not modelled.
- `is_teacher` is unused, and it depends on Django's group tables.
- `dashboard`, `course_list` and `contact_view` are left out. Each lists
  all rows or inserts one row, with nothing further to state.
- Editing a profile is left out: `ProfileForm` and the picture upload need
  uploads and media storage. `Views.ProfileView` models only the
  get-or-create step and the rendered page.
- Template rendering is not modelled. Redirect targets are abstract routes.
  `HttpResponseNotAllowed` and form widgets, labels and placeholders are
  left out.
- Form input is typed and already cleaned. Django's stripping of
  whitespace, parsing of numbers and dates (`%Y-%m-%dT%H:%M`) and database
  integer ranges are not modelled. So `GradeForm` always validates, and a
  `MatchFilterForm` is invalid only when it names a team that does not
  exist.
- `Views.CourseDetailEnrol` and `Views.AddStudentToCourse` take the
  `student` POST value as a user id. In the source that value is the raw
  request string. A value that is not a number, such as `abc` or the empty
  string, makes the id lookup raise an error (HTTP 500), not a 404. That
  error path is not modelled.
- Dates are integers, and `auto_now_add` times are a parameter `now`.
  `Models.MatchLabel` takes the date's text as a parameter, because
  Python's datetime formatting is not modelled.
- `icontains` is modelled with ASCII case folding, as SQLite's `LIKE`
  does. Unicode case folding and other database collations are not
  claimed.
- Key assignment is modelled as one above the largest key in use. Any
  unused key would serve the contracts equally well.
- `Profile` is keyed by its user's id, which encodes the one-to-one
  unique constraint. A profile's own primary key is not modelled.
- Transactions and concurrency are not modelled: each handler runs to
  completion on its own.
- `Lesson.__str__` and `Course.__str__` return the title unchanged, so
  there is nothing to state about them and they are not modelled.
- The `STUDENT` default of `User.role` is not modelled. It applies only to
  users created without a role. Registration requires a role choice, and
  no modelled handler creates users.
