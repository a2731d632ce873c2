/** The three catalog lookups behind the specialist agents of CareerMate:
    the skill-gap finder, the job matcher and the course recommender, with
    the literal catalogs they read and the agents' output records. */
module CareerMate {
  import opened Seqs
  import opened Text

  /** Python's `Optional[str]`. */
  datatype Option<T> = None | Some(value: T)

  // Output records of the three specialist agents.

  datatype SkillGapAnalysis = SkillGapAnalysis(missingSkills: seq<string>, reason: string)

  datatype JobMatch = JobMatch(title: string, company: string, location: string, matchReason: string)

  datatype CourseSuggestion = CourseSuggestion(skill: string, title: string, platform: string, link: string)

  // ---------------------------------------------------------------------
  // Skill-gap finder

  /** The catalog of required skills, keyed by lower-case job title. */
  function JobSkillMap(): map<string, seq<string>> {
    map[
      "data scientist" := ["Python", "Statistics", "Machine Learning", "SQL", "Data Visualization"],
      "web developer" := ["HTML", "CSS", "JavaScript", "React", "Node.js"],
      "data analyst" := ["SQL", "Excel", "Data Visualization", "Python", "Statistics"]
    ]
  }

  /** `job_skill_map.get(key, [])`. */
  function RequiredSkills(key: string): seq<string> {
    if key in JobSkillMap() then JobSkillMap()[key] else []
  }

  /** The required skills not among the user's, in catalog order. */
  function MissingFrom(required: seq<string>, userSkills: seq<string>): (r: seq<string>)
    ensures IsSubsequence(r, required)
    ensures forall s :: s in r <==> s in required && s !in userSkills
  {
    if required == [] then []
    else
      var rest := MissingFrom(required[1..], userSkills);
      assert required == [required[0]] + required[1..];
      if required[0] in userSkills then
        SubsequenceSkipsHead(rest, required);
        rest
      else
        [required[0]] + rest
  }

  /** The comprehension distributes over concatenation, so each occurrence of
      a required skill is judged on its own and repeats are kept. */
  lemma {:induction false} MissingFromAppend(a: seq<string>, b: seq<string>, userSkills: seq<string>)
    ensures MissingFrom(a + b, userSkills) == MissingFrom(a, userSkills) + MissingFrom(b, userSkills)
  {
    if a == [] {
      assert a + b == b;
    } else {
      assert (a + b)[0] == a[0];
      assert (a + b)[1..] == a[1..] + b;
      MissingFromAppend(a[1..], b, userSkills);
    }
  }

  /** One required skill is kept exactly when the user lacks it. */
  lemma MissingFromSingle(s: string, userSkills: seq<string>)
    ensures MissingFrom([s], userSkills) == if s in userSkills then [] else [s]
  {
    assert [s][1..] == [];
  }

  /** `get_missing_skills`: the looked-up job's required skills that the user
      lacks, a subsequence of the catalog list. */
  function GetMissingSkills(userSkills: seq<string>, targetJob: string): (r: seq<string>)
    ensures IsSubsequence(r, RequiredSkills(LowerStr(targetJob)))
    ensures forall s :: s in r <==> s in RequiredSkills(LowerStr(targetJob)) && s !in userSkills
  {
    MissingFrom(RequiredSkills(LowerStr(targetJob)), userSkills)
  }

  /** Never more missing skills than the job requires. */
  lemma MissingSkillsBound(userSkills: seq<string>, targetJob: string)
    ensures |GetMissingSkills(userSkills, targetJob)| <= |RequiredSkills(LowerStr(targetJob))|
  {
    SubsequenceBounds(GetMissingSkills(userSkills, targetJob), RequiredSkills(LowerStr(targetJob)));
  }

  /** An unknown title is not an error: nothing is missing. */
  lemma UnknownTitleHasNoGap(userSkills: seq<string>, targetJob: string)
    requires LowerStr(targetJob) !in JobSkillMap()
    ensures GetMissingSkills(userSkills, targetJob) == []
  {
  }

  /** A user who has every required skill is missing nothing. */
  lemma QualifiedUserHasNoGap(userSkills: seq<string>, targetJob: string)
    requires forall s :: s in RequiredSkills(LowerStr(targetJob)) ==> s in userSkills
    ensures GetMissingSkills(userSkills, targetJob) == []
  {
    var r := GetMissingSkills(userSkills, targetJob);
    assert forall i :: 0 <= i < |r| ==> r[i] in r;
  }

  /** The catalog keys are already lower case. */
  lemma CatalogKeysLowerCase(key: string)
    requires key in JobSkillMap()
    ensures LowerStr(key) == key
  {
    KeysHaveNoUpper();
    assert key == "data scientist" || key == "web developer" || key == "data analyst";
    LowerOfLowerCase(key);
  }

  lemma KeysHaveNoUpper()
    ensures HasNoUpper("data scientist") && HasNoUpper("web developer") && HasNoUpper("data analyst")
  {
  }

  /** The title lookup ignores case: a title that lower-cases to a catalog key
      gives the same answer as the key itself. */
  lemma TitleLookupIgnoresCase(userSkills: seq<string>, title: string, key: string)
    requires key in JobSkillMap() && LowerStr(title) == key
    ensures GetMissingSkills(userSkills, title) == GetMissingSkills(userSkills, key)
  {
    CatalogKeysLowerCase(key);
  }

  /** A user knowing Python and Excel who wants to be a data scientist. */
  lemma DataScientistScenario()
    ensures GetMissingSkills(["Python", "Excel"], "data scientist")
         == ["Statistics", "Machine Learning", "SQL", "Data Visualization"]
  {
    var user := ["Python", "Excel"];
    var req := ["Python", "Statistics", "Machine Learning", "SQL", "Data Visualization"];
    CatalogKeysLowerCase("data scientist");
    assert RequiredSkills(LowerStr("data scientist")) == req;
    DataScientistGap(user, req);
  }

  lemma DataScientistGap(user: seq<string>, req: seq<string>)
    requires user == ["Python", "Excel"]
    requires req == ["Python", "Statistics", "Machine Learning", "SQL", "Data Visualization"]
    ensures MissingFrom(req, user) == req[1..]
  {
    assert req[0] in user;
    assert req[1] !in user && req[2] !in user && req[3] !in user && req[4] !in user;
    assert forall s :: s in req[1..] ==> s !in user;
    NothingKnownAllMissing(req[1..], user);
  }

  /** When the user knows none of the required skills, all of them are missing. */
  lemma {:induction false} NothingKnownAllMissing(required: seq<string>, userSkills: seq<string>)
    requires forall s :: s in required ==> s !in userSkills
    ensures MissingFrom(required, userSkills) == required
  {
    if required != [] {
      NothingKnownAllMissing(required[1..], userSkills);
      assert [required[0]] + required[1..] == required;
    }
  }

  // ---------------------------------------------------------------------
  // Job matcher

  /** A hard-coded job posting: `{"title", "company", "location", "skills"}`. */
  datatype JobPosting = JobPosting(title: string, company: string, location: string, skills: seq<string>)

  function DummyJobs(): seq<JobPosting> {
    [
      JobPosting("Data Scientist", "TechCorp", "New York", ["Python", "SQL", "Machine Learning"]),
      JobPosting("Web Developer", "WebWorks", "Remote", ["HTML", "CSS", "JavaScript"]),
      JobPosting("Data Analyst", "DataInc", "Chicago", ["SQL", "Excel", "Python"])
    ]
  }

  /** `all(skill in user_skills for skill in skills)`. */
  predicate HasAllSkills(skills: seq<string>, userSkills: seq<string>) {
    forall s :: s in skills ==> s in userSkills
  }

  /** `location is None or location.lower() in job_location.lower()`. */
  predicate LocationAccepts(location: Option<string>, jobLocation: string) {
    location.None? || Contains(LowerStr(jobLocation), LowerStr(location.value))
  }

  predicate IsMatch(job: JobPosting, userSkills: seq<string>, location: Option<string>) {
    HasAllSkills(job.skills, userSkills) && LocationAccepts(location, job.location)
  }

  /** The postings of `jobs` that match, in their original order. */
  function MatchingJobs(jobs: seq<JobPosting>, userSkills: seq<string>, location: Option<string>): (r: seq<JobPosting>)
    ensures IsSubsequence(r, jobs)
    ensures forall j :: j in r <==> j in jobs && IsMatch(j, userSkills, location)
  {
    if jobs == [] then []
    else
      var rest := MatchingJobs(jobs[1..], userSkills, location);
      assert jobs == [jobs[0]] + jobs[1..];
      if IsMatch(jobs[0], userSkills, location) then
        [jobs[0]] + rest
      else
        SubsequenceSkipsHead(rest, jobs);
        rest
  }

  /** Matching one more posting at the end extends the result by it exactly
      when it matches. */
  lemma {:induction false} MatchingJobsSnoc(jobs: seq<JobPosting>, job: JobPosting, userSkills: seq<string>, location: Option<string>)
    ensures MatchingJobs(jobs + [job], userSkills, location)
         == MatchingJobs(jobs, userSkills, location) + (if IsMatch(job, userSkills, location) then [job] else [])
  {
    if jobs == [] {
      assert [] + [job] == [job];
    } else {
      assert (jobs + [job])[1..] == jobs[1..] + [job];
      MatchingJobsSnoc(jobs[1..], job, userSkills, location);
    }
  }

  /** `find_jobs`: scans the postings in order, appending each that matches. */
  method FindJobs(userSkills: seq<string>, location: Option<string>) returns (matched: seq<JobPosting>)
    ensures matched == MatchingJobs(DummyJobs(), userSkills, location)
  {
    var jobs := DummyJobs();
    matched := [];
    for i := 0 to |jobs|
      invariant matched == MatchingJobs(jobs[..i], userSkills, location)
    {
      var job := jobs[i];
      MatchingJobsStep(jobs, i, userSkills, location);
      if HasAllSkills(job.skills, userSkills) {
        if location.None? || Contains(LowerStr(job.location), LowerStr(location.value)) {
          matched := matched + [job];
        }
      }
    }
    assert jobs[..|jobs|] == jobs;
  }

  lemma MatchingJobsStep(jobs: seq<JobPosting>, i: nat, userSkills: seq<string>, location: Option<string>)
    requires i < |jobs|
    ensures MatchingJobs(jobs[..i + 1], userSkills, location)
         == MatchingJobs(jobs[..i], userSkills, location) + (if IsMatch(jobs[i], userSkills, location) then [jobs[i]] else [])
  {
    assert jobs[..i + 1] == jobs[..i] + [jobs[i]];
    MatchingJobsSnoc(jobs[..i], jobs[i], userSkills, location);
  }

  /** Weakening the match condition never loses a posting: the stricter
      result is a subsequence of the looser one. */
  lemma {:induction false} MatchingJobsMonotone(jobs: seq<JobPosting>,
                                                 u1: seq<string>, l1: Option<string>,
                                                 u2: seq<string>, l2: Option<string>)
    requires forall j :: j in jobs && IsMatch(j, u1, l1) ==> IsMatch(j, u2, l2)
    ensures IsSubsequence(MatchingJobs(jobs, u1, l1), MatchingJobs(jobs, u2, l2))
  {
    if jobs != [] {
      MatchingJobsMonotone(jobs[1..], u1, l1, u2, l2);
      var r1, r2 := MatchingJobs(jobs, u1, l1), MatchingJobs(jobs, u2, l2);
      var t1, t2 := MatchingJobs(jobs[1..], u1, l1), MatchingJobs(jobs[1..], u2, l2);
      if IsMatch(jobs[0], u1, l1) {
        assert r1 == [jobs[0]] + t1 && r2 == [jobs[0]] + t2;
        assert r1[1..] == t1 && r2[1..] == t2;
      } else if IsMatch(jobs[0], u2, l2) {
        assert r2 == [jobs[0]] + t2 && r2[1..] == t2;
        SubsequenceSkipsHead(t1, r2);
      }
    }
  }

  /** Adding skills never removes a match. */
  lemma MoreSkillsKeepMatches(jobs: seq<JobPosting>, fewer: seq<string>, more: seq<string>, location: Option<string>)
    requires forall s :: s in fewer ==> s in more
    ensures IsSubsequence(MatchingJobs(jobs, fewer, location), MatchingJobs(jobs, more, location))
  {
    MatchingJobsMonotone(jobs, fewer, location, more, location);
  }

  /** A location filter only narrows the unfiltered result. */
  lemma LocationFilterNarrows(jobs: seq<JobPosting>, userSkills: seq<string>, location: string)
    ensures IsSubsequence(MatchingJobs(jobs, userSkills, Some(location)), MatchingJobs(jobs, userSkills, None))
  {
    MatchingJobsMonotone(jobs, userSkills, Some(location), userSkills, None);
  }

  /** The empty location is not None and occurs in every location, so it
      filters nothing. */
  lemma {:induction false} EmptyLocationMatchesAll(jobs: seq<JobPosting>, userSkills: seq<string>)
    ensures MatchingJobs(jobs, userSkills, Some("")) == MatchingJobs(jobs, userSkills, None)
  {
    if jobs != [] {
      EmptyLocationMatchesAll(jobs[1..], userSkills);
      assert LowerStr("") == "";
      assert Contains(LowerStr(jobs[0].location), "");
    }
  }

  /** HTML, CSS and JavaScript with no location: only the WebWorks posting. */
  lemma WebDeveloperScenario()
    ensures MatchingJobs(DummyJobs(), ["HTML", "CSS", "JavaScript"], None) == [DummyJobs()[1]]
  {
    var jobs, user := DummyJobs(), ["HTML", "CSS", "JavaScript"];
    assert jobs[0].skills[0] !in user;
    assert jobs[2].skills[0] !in user;
    assert HasAllSkills(jobs[1].skills, user);
    assert MatchingJobs(jobs[2..], user, None) == [] by {
      assert jobs[2..][1..] == [];
    }
    assert MatchingJobs(jobs[1..], user, None) == [jobs[1]] by {
      assert jobs[1..][1..] == jobs[2..];
    }
  }

  /** SQL, Excel and Python in "chicago": only the DataInc posting. */
  lemma ChicagoScenario()
    ensures MatchingJobs(DummyJobs(), ["SQL", "Excel", "Python"], Some("chicago")) == [DummyJobs()[2]]
  {
    var jobs, user, loc := DummyJobs(), ["SQL", "Excel", "Python"], Some("chicago");
    ChicagoTail(jobs, user);
    TechCorpNeedsMachineLearning(jobs[0], user, loc);
  }

  lemma TechCorpNeedsMachineLearning(job: JobPosting, user: seq<string>, loc: Option<string>)
    requires job == DummyJobs()[0] && user == ["SQL", "Excel", "Python"]
    ensures !IsMatch(job, user, loc)
  {
    assert job.skills[2] !in user;
  }

  /** The postings after the first: only DataInc matches in "chicago". */
  lemma ChicagoTail(jobs: seq<JobPosting>, user: seq<string>)
    requires jobs == DummyJobs() && user == ["SQL", "Excel", "Python"]
    ensures MatchingJobs(jobs[1..], user, Some("chicago")) == [jobs[2]]
  {
    var loc := Some("chicago");
    DataIncInChicago(jobs[2], user);
    assert MatchingJobs(jobs[2..], user, loc) == [jobs[2]] by {
      assert jobs[2..][1..] == [];
    }
    assert jobs[1].skills[0] !in user;
    assert !IsMatch(jobs[1], user, loc);
    assert jobs[1..][1..] == jobs[2..];
  }

  lemma DataIncInChicago(job: JobPosting, user: seq<string>)
    requires job == DummyJobs()[2] && user == ["SQL", "Excel", "Python"]
    ensures IsMatch(job, user, Some("chicago"))
  {
    assert job.skills == ["SQL", "Excel", "Python"];
    assert HasAllSkills(job.skills, user);
    ChicagoLowerCase();
    assert "chicago" <= "chicago";
    assert Contains("chicago", "chicago");
  }

  lemma ChicagoLowerCase()
    ensures LowerStr("Chicago") == "chicago" && LowerStr("chicago") == "chicago"
  {
    assert HasNoUpper("chicago") && HasNoUpper("hicago");
    LowerOfLowerCase("chicago");
    LowerOfLowerCase("hicago");
    assert "Chicago"[1..] == "hicago";
    assert LowerStr("Chicago") == [Lower('C')] + LowerStr("hicago");
  }

  // ---------------------------------------------------------------------
  // Course recommender

  /** A catalog course: `{"title", "platform", "link"}`. */
  datatype Course = Course(title: string, platform: string, link: string)

  function CourseData(): map<string, seq<Course>> {
    map[
      "Python" := [Course("Intro to Python", "Coursera", "http://course.link/python")],
      "SQL" := [Course("SQL for Beginners", "Udemy", "http://course.link/sql")],
      "React" := [Course("React Crash Course", "edX", "http://course.link/react")],
      "Machine Learning" := [Course("ML Foundations", "Coursera", "http://course.link/ml")]
    ]
  }

  /** `course_data.get(skill, [])`: exact, case-sensitive lookup. */
  function CoursesFor(skill: string): seq<Course> {
    if skill in CourseData() then CourseData()[skill] else []
  }

  /** `{"skill": skill, **course}`. */
  function Suggest(skill: string, course: Course): CourseSuggestion {
    CourseSuggestion(skill, course.title, course.platform, course.link)
  }

  /** One suggestion per course, in catalog order, all for `skill`. */
  function SuggestionsFor(skill: string, courses: seq<Course>): (r: seq<CourseSuggestion>)
    ensures |r| == |courses|
    ensures forall i :: 0 <= i < |r| ==> r[i] == Suggest(skill, courses[i])
  {
    if courses == [] then [] else [Suggest(skill, courses[0])] + SuggestionsFor(skill, courses[1..])
  }

  /** Every skill expanded into its catalog courses, in input order. */
  function Recommendations(skills: seq<string>): (r: seq<CourseSuggestion>)
    ensures forall c :: c in r ==> c.skill in skills && Course(c.title, c.platform, c.link) in CoursesFor(c.skill)
  {
    if skills == [] then []
    else
      var head := SuggestionsFor(skills[0], CoursesFor(skills[0]));
      var rest := Recommendations(skills[1..]);
      assert forall c :: c in rest ==> c.skill in skills by {
        forall c | c in rest ensures c.skill in skills {
          assert c.skill in skills[1..];
        }
      }
      assert forall c :: c in head ==> c.skill == skills[0] && Course(c.title, c.platform, c.link) in CoursesFor(skills[0]) by {
        forall c | c in head
          ensures c.skill == skills[0] && Course(c.title, c.platform, c.link) in CoursesFor(skills[0])
        {
          var i :| 0 <= i < |head| && head[i] == c;
          assert Course(c.title, c.platform, c.link) == CoursesFor(skills[0])[i];
        }
      }
      head + rest
  }

  /** The number of courses the catalog holds for each skill, summed over the
      input, duplicates included. */
  function CourseCount(skills: seq<string>): nat {
    if skills == [] then 0 else |CoursesFor(skills[0])| + CourseCount(skills[1..])
  }

  lemma {:induction false} RecommendationsLength(skills: seq<string>)
    ensures |Recommendations(skills)| == CourseCount(skills)
  {
    if skills != [] {
      RecommendationsLength(skills[1..]);
    }
  }

  /** Recommending for two lists one after the other is recommending for
      their concatenation: order follows the input. */
  lemma {:induction false} RecommendationsAppend(a: seq<string>, b: seq<string>)
    ensures Recommendations(a + b) == Recommendations(a) + Recommendations(b)
  {
    if a != [] {
      assert (a + b)[0] == a[0];
      assert (a + b)[1..] == a[1..] + b;
      RecommendationsAppend(a[1..], b);
    } else {
      assert a + b == b;
    }
  }

  /** A skill the catalog does not know (exact match) adds nothing. */
  lemma UnknownSkillAddsNothing(before: seq<string>, skill: string, after: seq<string>)
    requires skill !in CourseData()
    ensures Recommendations(before + [skill] + after) == Recommendations(before + after)
  {
    RecommendationsAppend(before + [skill], after);
    RecommendationsAppend(before, [skill]);
    RecommendationsAppend(before, after);
  }

  /** `recommend_courses`: for each skill, appends one suggestion per catalog
      course. */
  method RecommendCourses(missingSkills: seq<string>) returns (recommendations: seq<CourseSuggestion>)
    ensures recommendations == Recommendations(missingSkills)
  {
    recommendations := [];
    for i := 0 to |missingSkills|
      invariant recommendations == Recommendations(missingSkills[..i])
    {
      var skill := missingSkills[i];
      var courses := CoursesFor(skill);
      ghost var before := recommendations;
      for k := 0 to |courses|
        invariant recommendations == before + SuggestionsFor(skill, courses[..k])
      {
        SuggestionsForSnoc(skill, courses, k);
        recommendations := recommendations + [Suggest(skill, courses[k])];
      }
      RecommendationsStep(missingSkills, i);
      assert courses[..|courses|] == courses;
    }
    assert missingSkills[..|missingSkills|] == missingSkills;
  }

  lemma SuggestionsForSnoc(skill: string, courses: seq<Course>, k: nat)
    requires k < |courses|
    ensures SuggestionsFor(skill, courses[..k + 1]) == SuggestionsFor(skill, courses[..k]) + [Suggest(skill, courses[k])]
  {
  }

  lemma RecommendationsStep(skills: seq<string>, i: nat)
    requires i < |skills|
    ensures Recommendations(skills[..i + 1]) == Recommendations(skills[..i]) + SuggestionsFor(skills[i], CoursesFor(skills[i]))
  {
    assert skills[..i + 1] == skills[..i] + [skills[i]];
    RecommendationsAppend(skills[..i], [skills[i]]);
    assert [skills[i]][1..] == [];
  }

  /** React then Machine Learning: the React course, then the ML course. */
  lemma ReactThenMachineLearningScenario()
    ensures Recommendations(["React", "Machine Learning"])
         == [CourseSuggestion("React", "React Crash Course", "edX", "http://course.link/react"),
             CourseSuggestion("Machine Learning", "ML Foundations", "Coursera", "http://course.link/ml")]
  {
    var skills := ["React", "Machine Learning"];
    assert CoursesFor(skills[0]) == [Course("React Crash Course", "edX", "http://course.link/react")];
    assert CoursesFor(skills[1]) == [Course("ML Foundations", "Coursera", "http://course.link/ml")];
    assert skills[1..][1..] == [];
  }
}
