# CareerMate advisor, modelled in Dafny

CareerMate is a small career assistant. A controller agent hands each
question to one of three specialist agents, and each specialist answers by
calling a tool that looks things up in a fixed in-memory catalog:

- `get_missing_skills` finds the required skills of a target job that the
  user lacks. The job title is lower-cased before the lookup.
- `find_jobs` lists the hard-coded postings whose whole skill list the user
  has, optionally narrowed to a location given as a case-insensitive
  substring.
- `recommend_courses` expands each missing skill into its catalog courses.

A Streamlit page keeps a per-session chat log. It formats each agent's final
output into labelled lines (`format_response`) and appends one assistant
entry per pending user message.

This project models those two cores:

- `seqs.dfy` (module `Seqs`): the subsequence relation. The filtering
  operations are stated against it.
- `text.dfy` (module `Text`): the parts of Python's `str` the code relies
  on. These are `lower`, the `in` substring test, `strip`, `join`, and a
  `split` used to state the line structure of the reports.
- `career_mate.dfy` (module `CareerMate`): the three catalogs, the three
  lookups and the agents' output records.
  - `get_missing_skills` is a list comprehension, so it is a function.
  - `find_jobs` and `recommend_courses` build their results by `append`
    inside `for` loops. They are methods with loops, proved equal to the
    specification functions `MatchingJobs` and `Recommendations`. The
    properties are proved about those functions.
- `chat_view.dfy` (module `ChatView`): `format_response` over a tagged union
  of agent outputs, and the session state as the class `ChatSession`.
  - The class holds the chat log, the thread id and the pending message.
  - It has one method per page action: chat input, "Submit Skills & Job",
    "Start New Conversation", and processing the pending message.

Skills are lists in the source and membership is list membership, so the
model uses sequences.

## Model

| member | source | states |
|---|---|---|
| CareerMate.GetMissingSkills | CareerMate.py:40-48 | The result is a subsequence of the required skills of the lower-cased title, so it keeps catalog order. A skill is in it exactly when the job requires it and the user lacks it. |
| CareerMate.JobSkillMap | CareerMate.py:42-46 | The literal catalog of required skills for the three lower-case job titles. |
| CareerMate.RequiredSkills | CareerMate.py:47 | `job_skill_map.get(key, [])`: the catalog list for a known key, the empty list otherwise. |
| CareerMate.MissingFrom | CareerMate.py:48 | The comprehension `[s for s in required if s not in user_skills]` keeps order (a subsequence), and a skill occurs in the result exactly when it is required and not in the user's list. |
| CareerMate.MissingFromAppend | CareerMate.py:48 | The comprehension distributes over concatenation of the required list, so each occurrence is judged on its own and a repeated required skill stays repeated. |
| CareerMate.MissingFromSingle | CareerMate.py:48 | A single required skill is kept exactly when the user lacks it. With MissingFromAppend this fixes the result for every input. |
| CareerMate.MissingSkillsBound | CareerMate.py:42-48 | There are never more missing skills than the job requires. |
| CareerMate.UnknownTitleHasNoGap | CareerMate.py:47 | A title whose lower-case form is not a catalog key gives the empty list, not an error. |
| CareerMate.QualifiedUserHasNoGap | CareerMate.py:47-48 | A user who has every required skill of the job is missing nothing. |
| CareerMate.NothingKnownAllMissing | CareerMate.py:48 | A user who knows none of the required skills is missing all of them, in catalog order. |
| CareerMate.CatalogKeysLowerCase | CareerMate.py:42-46 | Every key of the job catalog is already lower case, so lower-casing it changes nothing. |
| CareerMate.TitleLookupIgnoresCase | CareerMate.py:47 | Any title that lower-cases to a catalog key gives the same missing skills as the key itself. |
| CareerMate.DataScientistScenario | CareerMate.py:43-48 | Python and Excel against "data scientist" give Statistics, Machine Learning, SQL, Data Visualization. |
| CareerMate.DummyJobs | CareerMate.py:52-56 | The three literal postings with their titles, companies, locations and skill lists, in order. |
| CareerMate.HasAllSkills | CareerMate.py:59 | `all(skill in user_skills for skill in job["skills"])`: every skill of the posting is in the user's list. |
| CareerMate.LocationAccepts | CareerMate.py:60 | The location is None, or its lower-case form occurs in the posting's lower-cased location. |
| CareerMate.IsMatch | CareerMate.py:59-60 | A posting matches when both nested tests hold. |
| CareerMate.MatchingJobs | CareerMate.py:57-62 | The result keeps catalog order (a subsequence of the postings). A posting is in it exactly when the user has all of its skills and the location is None or occurs, lower-cased, in the posting's lower-cased location. |
| CareerMate.MatchingJobsSnoc | CareerMate.py:58-61 | One more posting extends the result by that posting exactly when it matches. |
| CareerMate.FindJobs | CareerMate.py:50-62 | The loop over `dummy_jobs` returns exactly `MatchingJobs` of the catalog. |
| CareerMate.MatchingJobsMonotone | CareerMate.py:59-60 | If every posting that matches one condition also matches a second, the first result is a subsequence of the second. |
| CareerMate.MoreSkillsKeepMatches | CareerMate.py:59 | Adding skills never removes a match. The old result is a subsequence of the new one. |
| CareerMate.LocationFilterNarrows | CareerMate.py:60 | A result filtered by location is a subsequence of the unfiltered result. |
| CareerMate.EmptyLocationMatchesAll | CareerMate.py:60 | The empty location is not None but occurs in every location, so it gives the unfiltered result. |
| CareerMate.WebDeveloperScenario | CareerMate.py:52-61 | HTML, CSS and JavaScript with no location match only the WebWorks "Web Developer" posting. |
| CareerMate.ChicagoScenario | CareerMate.py:52-61 | SQL, Excel and Python with location "chicago" match only the DataInc "Data Analyst" posting. |
| CareerMate.CourseData | CareerMate.py:66-71 | The literal course catalog: one course each for Python, SQL, React and Machine Learning. |
| CareerMate.CoursesFor | CareerMate.py:74 | `course_data.get(skill, [])`: an exact, case-sensitive lookup with the empty list as default. |
| CareerMate.Suggest | CareerMate.py:75 | `{"skill": skill, **course}`: the skill followed by the course's title, platform and link. |
| CareerMate.SuggestionsFor | CareerMate.py:74-75 | A skill gives one suggestion per catalog course, in catalog order. Each suggestion carries that skill and the course's title, platform and link. |
| CareerMate.Recommendations | CareerMate.py:72-76 | Every recommendation names an input skill and copies a course the catalog lists for that exact skill. |
| CareerMate.RecommendationsLength | CareerMate.py:73-75 | The number of recommendations is the sum, over the input skills with duplicates, of each skill's course count. |
| CareerMate.RecommendationsAppend | CareerMate.py:73-75 | Recommending for `a + b` gives the recommendations for `a` followed by those for `b`, so order follows the input. |
| CareerMate.UnknownSkillAddsNothing | CareerMate.py:74 | A skill that is not a key of `course_data` (exact, case-sensitive) contributes nothing. |
| CareerMate.RecommendCourses | CareerMate.py:64-76 | The nested loops return exactly `Recommendations` of the input. |
| CareerMate.ReactThenMachineLearningScenario | CareerMate.py:66-76 | React then Machine Learning give the React course and then the ML course. |
| Text.LowerStr | CareerMate.py:47 | `.lower()` keeps the length and lower-cases each character in place. |
| Text.Contains | CareerMate.py:60 | Python's `in` for strings holds exactly when the needle occurs at some index of the haystack. |
| Text.Strip | streamlit_UI_View.py:57 | `.strip()` returns a slice of the input with only whitespace around it, and the slice neither starts nor ends with whitespace. |
| Text.Join | streamlit_UI_View.py:76 | `', '.join` gives the empty string for no items and the item itself for one item. |
| ChatView.FieldNames | streamlit_UI_View.py:70-73 | The keys of the dictionary each output record dumps to. The datatype `AgentOutput` has one variant per record and `Plain` for a value that is not a dictionary, which has no keys. |
| ChatView.ProbedKeysExclusive | streamlit_UI_View.py:74-80 | No output carries two of the probed keys `missing_skills`, `company` and `platform`. |
| ChatView.GapReport | streamlit_UI_View.py:75-76 | The skill-gap f-string: a newline, the heading, the joined skills and the reason on labelled lines. |
| ChatView.JobReport | streamlit_UI_View.py:78-79 | The job f-string: a newline, the heading, then title, company, location and reason on labelled lines. |
| ChatView.CourseReport | streamlit_UI_View.py:81-82 | The course f-string: a newline, the heading, then skill, course title, platform and link on labelled lines. |
| ChatView.FormatResponse | streamlit_UI_View.py:69-83 | Total over every output. An unrecognised output gives its plain string form. Each of the three record shapes gives a report that starts with a newline. |
| ChatView.GapReportLines | streamlit_UI_View.py:74-76 | Split on newlines, the skill-gap report is a blank line, the heading, "Missing Skills: " with the skills joined by ", ", and "Reason: " with the reason. |
| ChatView.JobReportLines | streamlit_UI_View.py:77-79 | Split on newlines, the job report is a blank line, the heading, then title, company, location and reason, each on its labelled line. |
| ChatView.CourseReportLines | streamlit_UI_View.py:80-82 | Split on newlines, the course report is a blank line, the heading, then skill, course, platform and link, each on its labelled line. |
| ChatView.AgentInput | streamlit_UI_View.py:116-120 | The agent's history is never longer than the log and holds only user and assistant roles. |
| ChatView.AgentInputSnoc | streamlit_UI_View.py:116-120 | Appending one entry appends its role and content to the agent's history if the role is user or assistant, and nothing otherwise. |
| ChatView.AgentInputOfChatLog | streamlit_UI_View.py:116-120 | For a log of user and assistant entries, the history is the whole log in order, projected to role and content. |
| ChatView.AssistantReply | streamlit_UI_View.py:123-136 | On success, the reply is a slice of the formatted output with only whitespace cut off around it, and it neither starts nor ends with whitespace. On failure it is "Error: " followed by the message. |
| ChatView.GapReplyLines | streamlit_UI_View.py:123 | Stripping removes the skill-gap report's leading blank line and leaves its three labelled lines, when the reason ends in a non-space. |
| ChatView.JobReplyLines | streamlit_UI_View.py:123 | Stripping removes the job report's leading blank line and leaves its heading and four labelled lines, when the reason ends in a non-space. |
| ChatView.CourseReplyLines | streamlit_UI_View.py:123 | Stripping removes the course report's leading blank line and leaves its heading and four labelled lines, when the link ends in a non-space. |
| ChatView.IsPending | streamlit_UI_View.py:113 | Python truthiness of `processing_message`: it is set and not the empty string. |
| ChatView.PrefillQuery | streamlit_UI_View.py:57 | The prefilled query is never empty, so it always counts as pending. |
| ChatView.PrefillIgnoresJobCase | streamlit_UI_View.py:57 | Titles with the same lower-case form give the same prefilled query. |
| ChatView.ChatSession.constructor | streamlit_UI_View.py:40-47 | A new session has an empty log, nothing pending, and the given thread id. |
| ChatView.ChatSession.HandleInput | streamlit_UI_View.py:86-89 | Appends exactly one user entry with the input as content, sets the pending message to the input, and leaves earlier entries unchanged. |
| ChatView.ChatSession.SubmitChatInput | streamlit_UI_View.py:107-110 | A non-empty chat input is handled as `handle_input`. A missing or empty one changes nothing. |
| ChatView.ChatSession.SubmitSkillsAndJob | streamlit_UI_View.py:56-61 | Appends one user entry with content "I want to become a " + lower-cased job + " and I know " + stripped skills, and marks it pending. |
| ChatView.ChatSession.StartNewConversation | streamlit_UI_View.py:63-66 | Empties the log and takes the new thread id. The pending message is left as it was. |
| ChatView.ChatSession.ProcessPending | streamlit_UI_View.py:113-139 | If a message is pending, appends exactly one assistant entry to the unchanged earlier log and clears the pending message. The entry's content is the reply to the agent's outcome on `AgentInput` of the log, and that input is the whole earlier log, entry by entry, reduced to role and content. Otherwise it changes nothing. |

## Left out

- Environment loading and the start-up `ValueError` for missing settings (CareerMate.py:10-17) are configuration and I/O.
- The OpenAI client, the four `Agent` definitions, the controller's routing and hand-offs, `main`, `Runner.run` and `asyncio.run` (CareerMate.py:19-20, 78-154; streamlit_UI_View.py:122) are left out. An external language model decides all of this. The agent run appears only as the function `agent` given to `ProcessPending`, which maps the history to a success or failure outcome.
- Streamlit rendering is left out: page configuration, CSS, the HTML of each message, the title and caption, the spinner, `st.success` and `st.rerun`. The selected job, the skills text and the chat input are values of widgets, so they are parameters of the methods. The "advisor mode" select box is never read by the source and has no counterpart.
- The thread id from `uuid.uuid4()` and timestamps from `datetime.now()` are nondeterministic. They are parameters, and the timestamp is an uninterpreted string.
- `hasattr`/`model_dump` duck typing is replaced by the datatype `AgentOutput`: one variant per output record, plus `Plain` for any other value given by its `str()` form. A dictionary that has a probed key but lacks a field the report reads would raise `KeyError` in the source. It cannot be built from the variants and is not modelled.
- ChatView.FormatResponse: the key probing in the order `missing_skills`, `company`, `platform` is kept in the body. No variant carries two of the probed keys `missing_skills`, `company` and `platform` (ChatView.ProbedKeysExclusive), so the priority between them cannot be observed or stated.
- Text.LowerStr: lower-cases only the ASCII letters A-Z. Python's `str.lower` also maps non-ASCII letters.
- Text.Strip: removes only ASCII whitespace (space, tab to carriage return, and \x1c-\x1f). Python's `str.strip` also removes non-ASCII whitespace such as U+00A0.
- The emoji in the report headings are kept as single characters. Exact whitespace beyond the labelled-line structure is stated only through the line lemmas and `AssistantReply`.
