/** The schema of study_site/models.py: one record per model, the ORM's
    tables as maps from primary key to record, many-to-many relations as sets
    of keys stored on the side that declares them, and the CASCADE rules of
    the foreign keys as pure functions on a snapshot of the tables. */
module Models {
  import opened Text

  datatype Option<+T> = None | Some(value: T)

  type UserId = nat
  type CourseId = nat
  type LessonId = nat
  type AnswerId = nat
  type TeamId = nat
  type MatchId = nat

  /** A point in time, abstracted to a total order. */
  type Date = int

  /** `User.ROLE_CHOICES`: the two roles a user can hold. */
  datatype Role = Teacher | Student

  /** `User` extends Django's `AbstractUser`; of its inherited fields only
      the username and e-mail are kept. `teams` is `User.teams`, a
      many-to-many relation of its own, independent of `Team.players`. */
  datatype User = User(username: string, email: string, role: Role, teams: set<TeamId>)

  /** `Profile` is one-to-one with `User`, so profiles are keyed by the
      owning user's id (see `Db.profiles`). The picture upload is not modelled. */
  datatype Profile = Profile(phoneNumber: Option<string>, bio: Option<string>)

  datatype Lesson = Lesson(course: CourseId, title: string, description: string,
                           createdAt: Date, task: Option<string>)

  datatype Course = Course(title: string, description: string, teacher: UserId,
                           students: set<UserId>)

  /** `grade` is nullable: an answer can exist without a grade. */
  datatype Answer = Answer(student: UserId, lesson: LessonId, content: string,
                           createdAt: Date, grade: Option<int>)

  datatype Team = Team(name: string, sportType: string, coach: UserId,
                       players: set<UserId>)

  /** Nothing relates `team1` to `team2`: a team may be matched against itself. */
  datatype Match = Match(team1: TeamId, team2: TeamId, date: Date,
                         result: string, location: string)

  /** A snapshot of every table. */
  datatype Db = Db(users: map<UserId, User>,
                   profiles: map<UserId, Profile>,
                   courses: map<CourseId, Course>,
                   lessons: map<LessonId, Lesson>,
                   answers: map<AnswerId, Answer>,
                   teams: map<TeamId, Team>,
                   matches: map<MatchId, Match>)

  /** Referential integrity: every foreign key and every many-to-many
      element names an existing row. */
  ghost predicate Consistent(db: Db)
  {
    && db.profiles.Keys <= db.users.Keys
    && (forall u :: u in db.users ==> db.users[u].teams <= db.teams.Keys)
    && (forall c :: c in db.courses ==>
          db.courses[c].teacher in db.users && db.courses[c].students <= db.users.Keys)
    && (forall l :: l in db.lessons ==> db.lessons[l].course in db.courses)
    && (forall a :: a in db.answers ==>
          db.answers[a].student in db.users && db.answers[a].lesson in db.lessons)
    && (forall t :: t in db.teams ==>
          db.teams[t].coach in db.users && db.teams[t].players <= db.users.Keys)
    && (forall m :: m in db.matches ==>
          db.matches[m].team1 in db.teams && db.matches[m].team2 in db.teams)
  }

  /** `Team.players` and `User.teams` agree. The schema does not demand it. */
  ghost predicate Mirrored(db: Db)
  {
    forall t, u :: t in db.teams && u in db.users ==>
      (u in db.teams[t].players <==> t in db.users[u].teams)
  }

  /** The two relations are independent: a consistent database can have a
      player whose own team set does not list the team. */
  lemma RelationsIndependent()
    ensures exists db :: Consistent(db) && !Mirrored(db)
  {
    var db := Db(map[0 := User("coach", "", Teacher, {}), 1 := User("player", "", Student, {})],
                 map[], map[], map[], map[],
                 map[0 := Team("Eagles", "football", 0, {1})], map[]);
    assert 1 in db.teams[0].players && 0 !in db.users[1].teams;
    assert Consistent(db) && !Mirrored(db);
  }

  /** A team can be matched against itself without breaking integrity. */
  lemma SelfMatchConsistent(db: Db, id: MatchId, m: Match)
    requires Consistent(db) && m.team1 in db.teams && m.team2 == m.team1
    ensures Consistent(db.(matches := db.matches[id := m]))
  {
  }

  /** The largest element of a non-empty set of keys. */
  ghost function MaxOf(ids: set<nat>): (m: nat)
    requires ids != {}
    ensures m in ids
    ensures forall j :: j in ids ==> j <= m
    decreases ids
  {
    var x :| x in ids;
    var rest := ids - {x};
    assert forall j :: j in ids ==> j == x || j in rest;
    if rest == {} then x
    else
      var m := MaxOf(rest);
      if x <= m then m else x
  }

  /** The primary key the database assigns to a new row: one above every
      key in use, so never the key of an existing row. */
  function FreshId(ids: set<nat>): (r: nat)
    ensures r !in ids
    ensures forall i :: i in ids ==> i < r
  {
    if ids == {} then 0
    else
      assert MaxOf(ids) in ids;
      var m :| m in ids && forall j :: j in ids ==> j <= m;
      m + 1
  }

  /** `course.students.add(s)`: a set insert on one course's roster. */
  function AddStudent(courses: map<CourseId, Course>, c: CourseId, s: UserId): (r: map<CourseId, Course>)
    requires c in courses
    ensures r.Keys == courses.Keys
    ensures r[c] == courses[c].(students := courses[c].students + {s})
    ensures forall d :: d in courses && d != c ==> r[d] == courses[d]
  {
    courses[c := courses[c].(students := courses[c].students + {s})]
  }

  /** Enrolling the same student twice gives the roster of enrolling once. */
  lemma AddStudentIdempotent(courses: map<CourseId, Course>, c: CourseId, s: UserId)
    requires c in courses
    ensures AddStudent(AddStudent(courses, c, s), c, s) == AddStudent(courses, c, s)
  {
  }

  /** Enrolling someone already on the roster changes nothing. */
  lemma AddEnrolledStudent(courses: map<CourseId, Course>, c: CourseId, s: UserId)
    requires c in courses && s in courses[c].students
    ensures AddStudent(courses, c, s) == courses
  {
    assert courses[c].students + {s} == courses[c].students;
    assert courses[c].(students := courses[c].students) == courses[c];
  }

  // ---- CASCADE deletes ----

  /** Deleting a lesson removes the answers that reference it. */
  function DeleteLesson(db: Db, l: LessonId): (r: Db)
    ensures forall k :: k in r.lessons <==> k in db.lessons && k != l
    ensures forall k :: k in r.lessons ==> r.lessons[k] == db.lessons[k]
    ensures forall a :: a in r.answers <==> a in db.answers && db.answers[a].lesson != l
    ensures forall a :: a in r.answers ==> r.answers[a] == db.answers[a]
    ensures r == db.(lessons := r.lessons, answers := r.answers)
    ensures Consistent(db) ==> Consistent(r)
  {
    db.(lessons := map k | k in db.lessons && k != l :: db.lessons[k],
        answers := map a | a in db.answers && db.answers[a].lesson != l :: db.answers[a])
  }

  /** Deleting a course removes its roster, its lessons and their answers. */
  function DeleteCourse(db: Db, c: CourseId): (r: Db)
    ensures forall d :: d in r.courses <==> d in db.courses && d != c
    ensures forall d :: d in r.courses ==> r.courses[d] == db.courses[d]
    ensures forall l :: l in r.lessons <==> l in db.lessons && db.lessons[l].course != c
    ensures forall l :: l in r.lessons ==> r.lessons[l] == db.lessons[l]
    ensures forall a :: a in r.answers <==> a in db.answers && db.answers[a].lesson in r.lessons
    ensures forall a :: a in r.answers ==> r.answers[a] == db.answers[a]
    ensures r == db.(courses := r.courses, lessons := r.lessons, answers := r.answers)
    ensures Consistent(db) ==> Consistent(r)
  {
    var lessons := map l | l in db.lessons && db.lessons[l].course != c :: db.lessons[l];
    db.(courses := map d | d in db.courses && d != c :: db.courses[d],
        lessons := lessons,
        answers := map a | a in db.answers && db.answers[a].lesson in lessons :: db.answers[a])
  }

  /** Deleting a team removes the matches it plays in and its rows in
      every user's `teams`. */
  function DeleteTeam(db: Db, t: TeamId): (r: Db)
    ensures forall k :: k in r.teams <==> k in db.teams && k != t
    ensures forall k :: k in r.teams ==> r.teams[k] == db.teams[k]
    ensures forall m :: m in r.matches <==>
              m in db.matches && db.matches[m].team1 != t && db.matches[m].team2 != t
    ensures forall m :: m in r.matches ==> r.matches[m] == db.matches[m]
    ensures r.users.Keys == db.users.Keys
    ensures forall u :: u in r.users ==> r.users[u] == db.users[u].(teams := db.users[u].teams - {t})
    ensures r == db.(users := r.users, teams := r.teams, matches := r.matches)
    ensures Consistent(db) ==> Consistent(r)
    ensures Mirrored(db) ==> Mirrored(r)
  {
    db.(users := map u | u in db.users :: db.users[u].(teams := db.users[u].teams - {t}),
        teams := map k | k in db.teams && k != t :: db.teams[k],
        matches := map m | m in db.matches && db.matches[m].team1 != t && db.matches[m].team2 != t
                     :: db.matches[m])
  }

  /** The courses a user teaches and the teams a user coaches. */
  function TaughtBy(db: Db, u: UserId): set<CourseId>
  {
    set c | c in db.courses && db.courses[c].teacher == u
  }

  function CoachedBy(db: Db, u: UserId): set<TeamId>
  {
    set t | t in db.teams && db.teams[t].coach == u
  }

  /** Deleting a user cascades to the profile, the courses taught (with their
      lessons and those lessons' answers), the user's own answers, the teams
      coached (with their matches), and every many-to-many row naming the
      user or a deleted team. */
  function DeleteUser(db: Db, u: UserId): (r: Db)
    ensures forall v :: v in r.users <==> v in db.users && v != u
    ensures forall v :: v in r.users ==>
              r.users[v] == db.users[v].(teams := db.users[v].teams - CoachedBy(db, u))
    ensures forall v :: v in r.profiles <==> v in db.profiles && v != u
    ensures forall v :: v in r.profiles ==> r.profiles[v] == db.profiles[v]
    ensures forall c :: c in r.courses <==> c in db.courses && db.courses[c].teacher != u
    ensures forall c :: c in r.courses ==>
              r.courses[c] == db.courses[c].(students := db.courses[c].students - {u})
    ensures forall l :: l in r.lessons <==> l in db.lessons && db.lessons[l].course !in TaughtBy(db, u)
    ensures forall l :: l in r.lessons ==> r.lessons[l] == db.lessons[l]
    ensures forall a :: a in r.answers <==>
              a in db.answers && db.answers[a].student != u && db.answers[a].lesson in r.lessons
    ensures forall a :: a in r.answers ==> r.answers[a] == db.answers[a]
    ensures forall t :: t in r.teams <==> t in db.teams && db.teams[t].coach != u
    ensures forall t :: t in r.teams ==>
              r.teams[t] == db.teams[t].(players := db.teams[t].players - {u})
    ensures forall m :: m in r.matches <==>
              m in db.matches && db.matches[m].team1 !in CoachedBy(db, u)
              && db.matches[m].team2 !in CoachedBy(db, u)
    ensures forall m :: m in r.matches ==> r.matches[m] == db.matches[m]
  {
    var goneCourses := TaughtBy(db, u);
    var goneTeams := CoachedBy(db, u);
    var lessons := map l | l in db.lessons && db.lessons[l].course !in goneCourses :: db.lessons[l];
    Db(users := map v | v in db.users && v != u :: db.users[v].(teams := db.users[v].teams - goneTeams),
       profiles := map v | v in db.profiles && v != u :: db.profiles[v],
       courses := map c | c in db.courses && c !in goneCourses
                    :: db.courses[c].(students := db.courses[c].students - {u}),
       lessons := lessons,
       answers := map a | a in db.answers && db.answers[a].student != u && db.answers[a].lesson in lessons
                    :: db.answers[a],
       teams := map t | t in db.teams && t !in goneTeams
                  :: db.teams[t].(players := db.teams[t].players - {u}),
       matches := map m | m in db.matches && db.matches[m].team1 !in goneTeams
                            && db.matches[m].team2 !in goneTeams :: db.matches[m])
  }

  /** Deleting a user leaves no dangling reference behind. */
  lemma DeleteUserConsistent(db: Db, u: UserId)
    requires Consistent(db)
    ensures Consistent(DeleteUser(db, u))
  {
  }

  /** Deleting a user removes matching rows from both team relations, so
      they stay in agreement if they agreed before. */
  lemma DeleteUserMirrored(db: Db, u: UserId)
    requires Mirrored(db)
    ensures Mirrored(DeleteUser(db, u))
  {
  }

  // ---- __str__ formats ----

  function ProfileLabel(owner: User): string
  {
    "Profile of " + owner.username
  }

  function AnswerLabel(author: User, lesson: Lesson): string
  {
    "Answer by " + author.username + " for " + lesson.title
  }

  function TeamLabel(t: Team): string
  {
    t.name + " (" + t.sportType + ")"
  }

  /** `dateText` is the text Python's datetime formatting gives the match date. */
  function MatchLabel(home: Team, away: Team, dateText: string): string
  {
    home.name + " vs " + away.name + " on " + dateText
  }

  /** Distinct usernames give distinct profile labels. */
  lemma ProfileLabelInjective(a: User, b: User)
    requires ProfileLabel(a) == ProfileLabel(b)
    ensures a.username == b.username
  {
    var n := |"Profile of "|;
    assert a.username == ProfileLabel(a)[n..];
    assert b.username == ProfileLabel(b)[n..];
  }

  /** The last index of `c` in `s`, if any. */
  function LastIndexOf(s: string, c: char): (r: Option<nat>)
    ensures r.None? ==> c !in s
    ensures r.Some? ==> r.value < |s| && s[r.value] == c && c !in s[r.value + 1..]
  {
    if |s| == 0 then None
    else if s[|s| - 1] == c then Some(|s| - 1)
    else
      var r := LastIndexOf(s[..|s| - 1], c);
      assert r.Some? ==> s[r.value + 1..] == s[..|s| - 1][r.value + 1..] + [s[|s| - 1]];
      r
  }

  lemma LastIndexOfSplit(a: string, c: char, b: string)
    requires c !in b
    ensures LastIndexOf(a + [c] + b, c) == Some(|a|)
  {
    var s := a + [c] + b;
    assert s[|a|] == c;
    assert s[|a| + 1..] == b;
  }

  /** Reads `name` and `sportType` back out of a team label: the sport type
      is what lies between the last '(' and the closing ')'. */
  function ParseTeamLabel(s: string): Option<(string, string)>
  {
    match LastIndexOf(s, '(')
    case None => None
    case Some(i) =>
      if 1 <= i && s[i - 1] == ' ' && |s| >= i + 2 && s[|s| - 1] == ')'
      then Some((s[..i - 1], s[i + 1..|s| - 1]))
      else None
  }

  /** A team label determines the team's name and sport type whenever the
      sport type has no '('. */
  lemma TeamLabelRoundTrip(t: Team)
    requires '(' !in t.sportType
    ensures ParseTeamLabel(TeamLabel(t)) == Some((t.name, t.sportType))
  {
    var s := TeamLabel(t);
    assert s == (t.name + " ") + ['('] + (t.sportType + ")");
    assert '(' !in t.sportType + ")";
    LastIndexOfSplit(t.name + " ", '(', t.sportType + ")");
    var i := |t.name| + 1;
    assert s[..i - 1] == t.name;
    assert s[i + 1..|s| - 1] == t.sportType;
  }

  /** A match label names both teams and the date. */
  lemma MatchLabelNames(home: Team, away: Team, dateText: string)
    ensures Contains(MatchLabel(home, away, dateText), home.name)
    ensures Contains(MatchLabel(home, away, dateText), away.name)
    ensures Contains(MatchLabel(home, away, dateText), dateText)
  {
    var s := MatchLabel(home, away, dateText);
    ContainsInfix([], home.name, " vs " + away.name + " on " + dateText);
    assert s == [] + home.name + (" vs " + away.name + " on " + dateText);
    ContainsInfix(home.name + " vs ", away.name, " on " + dateText);
    assert s == (home.name + " vs ") + away.name + (" on " + dateText);
    ContainsInfix(home.name + " vs " + away.name + " on ", dateText, []);
    assert s == (home.name + " vs " + away.name + " on ") + dateText + [];
  }

  /** An answer label names its author and its lesson. */
  lemma AnswerLabelNames(author: User, lesson: Lesson)
    ensures Contains(AnswerLabel(author, lesson), author.username)
    ensures Contains(AnswerLabel(author, lesson), lesson.title)
  {
    var s := AnswerLabel(author, lesson);
    ContainsInfix("Answer by ", author.username, " for " + lesson.title);
    assert s == "Answer by " + author.username + (" for " + lesson.title);
    ContainsInfix("Answer by " + author.username + " for ", lesson.title, []);
    assert s == ("Answer by " + author.username + " for ") + lesson.title + [];
  }

  /** The ORM's tables, updated in place by the request handlers. */
  class Database {
    var users: map<UserId, User>
    var profiles: map<UserId, Profile>
    var courses: map<CourseId, Course>
    var lessons: map<LessonId, Lesson>
    var answers: map<AnswerId, Answer>
    var teams: map<TeamId, Team>
    var matches: map<MatchId, Match>

    function Snapshot(): Db
      reads this
    {
      Db(users, profiles, courses, lessons, answers, teams, matches)
    }

    ghost predicate Valid()
      reads this
    {
      Consistent(Snapshot())
    }

    /** An empty database. */
    constructor ()
      ensures Valid() && Mirrored(Snapshot())
      ensures Snapshot() == Db(map[], map[], map[], map[], map[], map[], map[])
    {
      users, profiles, courses, lessons := map[], map[], map[], map[];
      answers, teams, matches := map[], map[], map[];
    }
  }
}
