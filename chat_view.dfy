/** The logic of the CareerMate chat page: turning an agent's final output
    into display text, and the per-session chat log with its pending
    message, updated by the page's input, reset, prefill and processing
    steps. */
module ChatView {
  import opened Text
  import opened CareerMate

  // ---------------------------------------------------------------------
  // Formatting an agent's final output

  /** The final output of an agent run: one of the three specialist records,
      or any other value, carried as its `str()` form. */
  datatype AgentOutput =
    | GapOutput(gap: SkillGapAnalysis)
    | JobOutput(job: JobMatch)
    | CourseOutput(course: CourseSuggestion)
    | Plain(text: string)

  /** The keys of the dictionary a record dumps to; a value that is not a
      record is not a dictionary and has none. */
  function FieldNames(o: AgentOutput): set<string> {
    match o
    case GapOutput(_) => {"missing_skills", "reason"}
    case JobOutput(_) => {"title", "company", "location", "match_reason"}
    case CourseOutput(_) => {"skill", "title", "platform", "link"}
    case Plain(_) => {}
  }

  // The three report texts, each a leading newline and then labelled lines.

  function GapReport(g: SkillGapAnalysis): string {
    "\n" + "🧠 Skill Gap Analysis"
      + "\n" + "Missing Skills: " + Join(g.missingSkills, ", ")
      + "\n" + "Reason: " + g.reason
  }

  function JobReport(j: JobMatch): string {
    "\n" + "💼 Job Match"
      + "\n" + "Title: " + j.title
      + "\n" + "Company: " + j.company
      + "\n" + "Location: " + j.location
      + "\n" + "Why this job: " + j.matchReason
  }

  function CourseReport(c: CourseSuggestion): string {
    "\n" + "📖 Course Recommendation"
      + "\n" + "Skill: " + c.skill
      + "\n" + "Course: " + c.title
      + "\n" + "Platform: " + c.platform
      + "\n" + "Link: " + c.link
  }

  /** `format_response`: probes the keys in the order `missing_skills`,
      `company`, `platform`, and falls back to the plain string form. It is
      total: every output yields a text. */
  function FormatResponse(o: AgentOutput): (r: string)
    ensures o.Plain? ==> r == o.text
    ensures !o.Plain? ==> r != [] && r[0] == '\n'
  {
    if "missing_skills" in FieldNames(o) then GapReport(o.gap)
    else if "company" in FieldNames(o) then JobReport(o.job)
    else if "platform" in FieldNames(o) then CourseReport(o.course)
    else o.text
  }

  predicate NoNewline(s: string) {
    '\n' !in s
  }

  /** The labelled lines of the skill-gap report. */
  function GapLines(g: SkillGapAnalysis): seq<string> {
    ["", "🧠 Skill Gap Analysis", "Missing Skills: " + Join(g.missingSkills, ", "), "Reason: " + g.reason]
  }

  lemma GapReportJoinsLines(g: SkillGapAnalysis)
    ensures GapReport(g) == Join(GapLines(g), "\n")
    ensures GapReport(g) == "\n" + Join(GapLines(g)[1..], "\n")
  {
    var lines := ["", "🧠 Skill Gap Analysis"];
    Heading("🧠 Skill Gap Analysis");
    JoinSnocLabelled(lines, "Missing Skills: ", Join(g.missingSkills, ", "), "\n");
    lines := lines + ["Missing Skills: " + Join(g.missingSkills, ", ")];
    JoinSnocLabelled(lines, "Reason: ", g.reason, "\n");
    lines := lines + ["Reason: " + g.reason];
    assert lines == GapLines(g);
    ReportJoin(lines);
  }

  /** A blank line and a heading join to a newline and the heading. */
  lemma Heading(h: string)
    ensures Join(["", h], "\n") == "\n" + h
  {
    JoinCons("", [h], "\n");
    assert [""] + [h] == ["", h];
  }

  /** A report whose first line is blank is a newline and then the rest. */
  lemma ReportJoin(lines: seq<string>)
    requires |lines| >= 2 && lines[0] == ""
    ensures Join(lines, "\n") == "\n" + Join(lines[1..], "\n")
  {
    JoinCons(lines[0], lines[1..], "\n");
    assert [lines[0]] + lines[1..] == lines;
    assert lines[0] + "\n" == "\n";
  }

  /** The skill-gap report is a blank line, the heading, the missing skills
      joined by ", ", and the reason, each on its own line. */
  lemma GapReportLines(g: SkillGapAnalysis)
    requires forall i :: 0 <= i < |g.missingSkills| ==> NoNewline(g.missingSkills[i])
    requires NoNewline(g.reason)
    ensures Split(FormatResponse(GapOutput(g)), '\n') == GapLines(g)
  {
    GapReportJoinsLines(g);
    GapLinesHaveNoNewline(g);
    SplitJoin(GapLines(g), '\n');
  }

  /** The labelled lines of the job report. */
  function JobLines(j: JobMatch): seq<string> {
    ["", "💼 Job Match", "Title: " + j.title, "Company: " + j.company,
     "Location: " + j.location, "Why this job: " + j.matchReason]
  }

  /** The labelled lines of the course report. */
  function CourseLines(c: CourseSuggestion): seq<string> {
    ["", "📖 Course Recommendation", "Skill: " + c.skill, "Course: " + c.title,
     "Platform: " + c.platform, "Link: " + c.link]
  }

  lemma JobReportJoinsLines(j: JobMatch)
    ensures JobReport(j) == Join(JobLines(j), "\n")
  {
    var lines := ["", "💼 Job Match"];
    Heading("💼 Job Match");
    JoinSnocLabelled(lines, "Title: ", j.title, "\n");
    lines := lines + ["Title: " + j.title];
    JoinSnocLabelled(lines, "Company: ", j.company, "\n");
    lines := lines + ["Company: " + j.company];
    JoinSnocLabelled(lines, "Location: ", j.location, "\n");
    lines := lines + ["Location: " + j.location];
    JoinSnocLabelled(lines, "Why this job: ", j.matchReason, "\n");
    lines := lines + ["Why this job: " + j.matchReason];
    assert lines == JobLines(j);
  }

  lemma CourseReportJoinsLines(c: CourseSuggestion)
    ensures CourseReport(c) == Join(CourseLines(c), "\n")
  {
    var lines := ["", "📖 Course Recommendation"];
    Heading("📖 Course Recommendation");
    JoinSnocLabelled(lines, "Skill: ", c.skill, "\n");
    lines := lines + ["Skill: " + c.skill];
    JoinSnocLabelled(lines, "Course: ", c.title, "\n");
    lines := lines + ["Course: " + c.title];
    JoinSnocLabelled(lines, "Platform: ", c.platform, "\n");
    lines := lines + ["Platform: " + c.platform];
    JoinSnocLabelled(lines, "Link: ", c.link, "\n");
    lines := lines + ["Link: " + c.link];
    assert lines == CourseLines(c);
  }

  /** The job report puts title, company, location and reason each on its
      labelled line. */
  lemma JobReportLines(j: JobMatch)
    requires NoNewline(j.title) && NoNewline(j.company) && NoNewline(j.location) && NoNewline(j.matchReason)
    ensures Split(FormatResponse(JobOutput(j)), '\n') == JobLines(j)
  {
    JobReportJoinsLines(j);
    JobLinesHaveNoNewline(j);
    SplitJoin(JobLines(j), '\n');
  }

  /** The course report puts skill, course title, platform and link each on
      its labelled line. */
  lemma CourseReportLines(c: CourseSuggestion)
    requires NoNewline(c.skill) && NoNewline(c.title) && NoNewline(c.platform) && NoNewline(c.link)
    ensures Split(FormatResponse(CourseOutput(c)), '\n') == CourseLines(c)
  {
    CourseReportJoinsLines(c);
    CourseLinesHaveNoNewline(c);
    SplitJoin(CourseLines(c), '\n');
  }

  // ---------------------------------------------------------------------
  // The chat session

  /** One chat-log entry; the timestamp is an uninterpreted display string. */
  datatype Entry = Entry(role: string, content: string, timestamp: string)

  /** What the agent receives for one log entry. */
  datatype Message = Message(role: string, content: string)

  /** The result of one agent run: its final output, or the text of the
      exception it raised. */
  datatype AgentOutcome = Completed(output: AgentOutput) | Failed(message: string)

  /** `role in ["user", "assistant"]`. */
  predicate IsChatRole(role: string) {
    role == "user" || role == "assistant"
  }

  /** The history handed to the agent: the log in order, keeping the user and
      assistant entries, each reduced to its role and content. */
  function AgentInput(log: seq<Entry>): (r: seq<Message>)
    ensures |r| <= |log|
    ensures forall i :: 0 <= i < |r| ==> IsChatRole(r[i].role)
  {
    if log == [] then []
    else
      (if IsChatRole(log[0].role) then [Message(log[0].role, log[0].content)] else [])
        + AgentInput(log[1..])
  }

  /** Logging one more entry adds its message at the end, if its role is kept. */
  lemma {:induction false} AgentInputSnoc(log: seq<Entry>, e: Entry)
    ensures AgentInput(log + [e])
         == AgentInput(log) + (if IsChatRole(e.role) then [Message(e.role, e.content)] else [])
  {
    if log == [] {
      assert [] + [e] == [e];
    } else {
      assert (log + [e])[1..] == log[1..] + [e];
      AgentInputSnoc(log[1..], e);
    }
  }

  /** A log holding only user and assistant entries is handed over whole,
      entry by entry. */
  lemma {:induction false} AgentInputOfChatLog(log: seq<Entry>)
    requires forall i :: 0 <= i < |log| ==> IsChatRole(log[i].role)
    ensures |AgentInput(log)| == |log|
    ensures forall i :: 0 <= i < |log| ==> AgentInput(log)[i] == Message(log[i].role, log[i].content)
  {
    if log != [] {
      AgentInputOfChatLog(log[1..]);
    }
  }

  /** The assistant's entry for one agent run: the formatted output stripped
      of surrounding whitespace, or `"Error: "` and the exception text. */
  function AssistantReply(outcome: AgentOutcome): (r: string)
    ensures outcome.Completed? ==> r == [] || (!IsSpace(r[0]) && !IsSpace(r[|r| - 1]))
    ensures outcome.Completed? ==> exists i :: TrimmedAt(FormatResponse(outcome.output), r, i)
    ensures outcome.Failed? ==> "Error: " <= r && r[|"Error: "|..] == outcome.message
  {
    match outcome
    case Completed(output) => Strip(FormatResponse(output))
    case Failed(message) => "Error: " + message
  }

  /** A skill-gap reply drops the report's leading blank line and keeps its
      three labelled lines, as long as the reason ends in a non-space. */
  lemma GapReplyLines(g: SkillGapAnalysis)
    requires forall i :: 0 <= i < |g.missingSkills| ==> NoNewline(g.missingSkills[i])
    requires NoNewline(g.reason)
    requires g.reason != [] && !IsSpace(g.reason[|g.reason| - 1])
    ensures Split(AssistantReply(Completed(GapOutput(g))), '\n') == GapLines(g)[1..]
  {
    GapReplyJoinsLines(g);
    GapLinesHaveNoNewline(g);
    SplitJoin(GapLines(g)[1..], '\n');
  }

  lemma GapLinesHaveNoNewline(g: SkillGapAnalysis)
    requires forall i :: 0 <= i < |g.missingSkills| ==> NoNewline(g.missingSkills[i])
    requires NoNewline(g.reason)
    ensures forall i :: 0 <= i < |GapLines(g)| ==> NoNewline(GapLines(g)[i])
    ensures forall i :: 0 <= i < |GapLines(g)[1..]| ==> NoNewline(GapLines(g)[1..][i])
  {
    JoinAvoids(g.missingSkills, ", ", '\n');
  }

  lemma GapReplyJoinsLines(g: SkillGapAnalysis)
    requires g.reason != [] && !IsSpace(g.reason[|g.reason| - 1])
    ensures AssistantReply(Completed(GapOutput(g)))
         == Join(["🧠 Skill Gap Analysis", "Missing Skills: " + Join(g.missingSkills, ", "), "Reason: " + g.reason], "\n")
    ensures GapLines(g)[1..]
         == ["🧠 Skill Gap Analysis", "Missing Skills: " + Join(g.missingSkills, ", "), "Reason: " + g.reason]
  {
    var lines := GapLines(g)[1..];
    GapReportJoinsLines(g);
    JoinCons(lines[0], lines[1..], "\n");
    assert [lines[0]] + lines[1..] == lines;
    var body := Join(lines, "\n");
    assert body == lines[0] + "\n" + Join(lines[1..], "\n");
    assert body[0] == '🧠';
    GapReplyEndsWithReason(g, lines, body);
    StripAfterSpaces("\n", body);
  }

  lemma GapReplyEndsWithReason(g: SkillGapAnalysis, lines: seq<string>, body: string)
    requires g.reason != []
    requires lines == GapLines(g)[1..] && body == Join(lines, "\n")
    ensures body != [] && body[|body| - 1] == g.reason[|g.reason| - 1]
  {
    JoinCons(lines[0], lines[1..], "\n");
    JoinCons(lines[1], lines[2..], "\n");
    assert [lines[0]] + lines[1..] == lines;
    assert [lines[1]] + lines[2..] == lines[1..];
    assert body == lines[0] + "\n" + (lines[1] + "\n" + lines[2]);
  }

  /** Stripping a report drops its leading blank line, as long as its
      heading starts and its last line ends with a non-space. */
  lemma StripReport(lines: seq<string>)
    requires |lines| >= 2 && lines[0] == ""
    requires lines[1] != [] && !IsSpace(lines[1][0])
    requires lines[|lines| - 1] != [] && !IsSpace(lines[|lines| - 1][|lines[|lines| - 1]| - 1])
    ensures Strip(Join(lines, "\n")) == Join(lines[1..], "\n")
  {
    var rest := lines[1..];
    assert rest[0] == lines[1] && rest[|rest| - 1] == lines[|lines| - 1];
    JoinStarts(rest, "\n");
    JoinEnds(rest, "\n");
    ReportJoin(lines);
    StripAfterSpaces("\n", Join(rest, "\n"));
  }

  /** A labelled line ends with the last character of its field. */
  lemma LabelledLineEnd(tag: string, field: string)
    requires field != [] && !IsSpace(field[|field| - 1])
    ensures tag + field != [] && !IsSpace((tag + field)[|tag + field| - 1])
  {
    assert (tag + field)[|tag + field| - 1] == field[|field| - 1];
  }

  /** A job reply drops the report's leading blank line and keeps its five
      labelled lines, as long as the reason ends in a non-space. */
  lemma JobReplyLines(j: JobMatch)
    requires NoNewline(j.title) && NoNewline(j.company) && NoNewline(j.location) && NoNewline(j.matchReason)
    requires j.matchReason != [] && !IsSpace(j.matchReason[|j.matchReason| - 1])
    ensures Split(AssistantReply(Completed(JobOutput(j))), '\n') == JobLines(j)[1..]
  {
    JobReplyJoinsLines(j);
    JobLinesHaveNoNewline(j);
    SplitJoin(JobLines(j)[1..], '\n');
  }

  lemma JobLinesHaveNoNewline(j: JobMatch)
    requires NoNewline(j.title) && NoNewline(j.company) && NoNewline(j.location) && NoNewline(j.matchReason)
    ensures forall i :: 0 <= i < |JobLines(j)| ==> NoNewline(JobLines(j)[i])
    ensures forall i :: 0 <= i < |JobLines(j)[1..]| ==> NoNewline(JobLines(j)[1..][i])
  {
    var lines := JobLines(j);
    assert NoNewline(lines[1]);
  }

  lemma JobReplyJoinsLines(j: JobMatch)
    requires j.matchReason != [] && !IsSpace(j.matchReason[|j.matchReason| - 1])
    ensures AssistantReply(Completed(JobOutput(j))) == Join(JobLines(j)[1..], "\n")
  {
    var lines := JobLines(j);
    JobReportJoinsLines(j);
    assert FormatResponse(JobOutput(j)) == Join(lines, "\n");
    LabelledLineEnd("Why this job: ", j.matchReason);
    StripReport(lines);
  }

  /** A course reply drops the report's leading blank line and keeps its five
      labelled lines, as long as the link ends in a non-space. */
  lemma CourseReplyLines(c: CourseSuggestion)
    requires NoNewline(c.skill) && NoNewline(c.title) && NoNewline(c.platform) && NoNewline(c.link)
    requires c.link != [] && !IsSpace(c.link[|c.link| - 1])
    ensures Split(AssistantReply(Completed(CourseOutput(c))), '\n') == CourseLines(c)[1..]
  {
    CourseReplyJoinsLines(c);
    CourseLinesHaveNoNewline(c);
    SplitJoin(CourseLines(c)[1..], '\n');
  }

  lemma CourseLinesHaveNoNewline(c: CourseSuggestion)
    requires NoNewline(c.skill) && NoNewline(c.title) && NoNewline(c.platform) && NoNewline(c.link)
    ensures forall i :: 0 <= i < |CourseLines(c)| ==> NoNewline(CourseLines(c)[i])
    ensures forall i :: 0 <= i < |CourseLines(c)[1..]| ==> NoNewline(CourseLines(c)[1..][i])
  {
    var lines := CourseLines(c);
    assert NoNewline(lines[1]);
  }

  lemma CourseReplyJoinsLines(c: CourseSuggestion)
    requires c.link != [] && !IsSpace(c.link[|c.link| - 1])
    ensures AssistantReply(Completed(CourseOutput(c))) == Join(CourseLines(c)[1..], "\n")
  {
    var lines := CourseLines(c);
    CourseReportJoinsLines(c);
    assert FormatResponse(CourseOutput(c)) == Join(lines, "\n");
    LabelledLineEnd("Link: ", c.link);
    StripReport(lines);
  }

  /** No output carries two of the keys `format_response` probes. */
  lemma ProbedKeysExclusive(o: AgentOutput)
    ensures "missing_skills" in FieldNames(o) ==> "company" !in FieldNames(o) && "platform" !in FieldNames(o)
    ensures "company" in FieldNames(o) ==> "platform" !in FieldNames(o)
  {
  }

  /** Python truthiness of `processing_message`: set and not empty. */
  predicate IsPending(message: Option<string>) {
    message.Some? && message.value != ""
  }

  /** The query that "Submit Skills & Job" writes for the user. */
  function PrefillQuery(selectedJob: string, skillsInput: string): (q: string)
    ensures IsPending(Some(q))
  {
    "I want to become a " + LowerStr(selectedJob) + " and I know " + Strip(skillsInput)
  }

  /** The prefilled query does not depend on how the job title is cased. */
  lemma PrefillIgnoresJobCase(selectedJob: string, other: string, skillsInput: string)
    requires LowerStr(other) == LowerStr(selectedJob)
    ensures PrefillQuery(other, skillsInput) == PrefillQuery(selectedJob, skillsInput)
  {
  }

  /** The state one browser session keeps: the chat log, the thread id and
      the message still waiting for an answer. */
  class ChatSession {
    var chatHistory: seq<Entry>
    var threadId: string
    var processingMessage: Option<string>

    /** Every logged entry is a user or an assistant entry. */
    ghost predicate Valid()
      reads this
    {
      forall i :: 0 <= i < |chatHistory| ==> IsChatRole(chatHistory[i].role)
    }

    /** A new session: empty log, nothing pending. */
    constructor (threadId: string)
      ensures Valid()
      ensures chatHistory == [] && this.threadId == threadId && processingMessage == None
    {
      chatHistory := [];
      this.threadId := threadId;
      processingMessage := None;
    }

    /** `handle_input`: logs the user's text and marks it as pending. */
    method HandleInput(userInput: string, timestamp: string)
      requires Valid()
      modifies this
      ensures Valid()
      ensures chatHistory == old(chatHistory) + [Entry("user", userInput, timestamp)]
      ensures processingMessage == Some(userInput)
      ensures threadId == old(threadId)
    {
      chatHistory := chatHistory + [Entry("user", userInput, timestamp)];
      processingMessage := Some(userInput);
    }

    /** The chat input box: a submitted, non-empty text goes to `handle_input`. */
    method SubmitChatInput(userText: Option<string>, timestamp: string)
      requires Valid()
      modifies this
      ensures Valid()
      ensures IsPending(userText) ==>
                chatHistory == old(chatHistory) + [Entry("user", userText.value, timestamp)]
                && processingMessage == userText
      ensures !IsPending(userText) ==>
                chatHistory == old(chatHistory) && processingMessage == old(processingMessage)
      ensures threadId == old(threadId)
    {
      if userText.Some? && userText.value != "" {
        HandleInput(userText.value, timestamp);
      }
    }

    /** "Submit Skills & Job": logs the prefilled query and marks it pending. */
    method SubmitSkillsAndJob(selectedJob: string, skillsInput: string, timestamp: string)
      requires Valid()
      modifies this
      ensures Valid()
      ensures chatHistory == old(chatHistory) + [Entry("user", PrefillQuery(selectedJob, skillsInput), timestamp)]
      ensures processingMessage == Some(PrefillQuery(selectedJob, skillsInput))
      ensures IsPending(processingMessage)
      ensures threadId == old(threadId)
    {
      var prefill := PrefillQuery(selectedJob, skillsInput);
      var entry := Entry("user", prefill, timestamp);
      assert IsChatRole(entry.role);
      chatHistory := chatHistory + [entry];
      processingMessage := Some(prefill);
    }

    /** "Start New Conversation": empties the log under a new thread id; a
        pending message stays pending. */
    method StartNewConversation(newThreadId: string)
      requires Valid()
      modifies this
      ensures Valid()
      ensures chatHistory == [] && threadId == newThreadId
      ensures processingMessage == old(processingMessage)
    {
      chatHistory := [];
      threadId := newThreadId;
    }

    /** The processing step: when a message is pending, runs the agent on the
        log, appends exactly one assistant entry with its reply and clears the
        pending message; otherwise changes nothing. */
    method ProcessPending(agent: seq<Message> -> AgentOutcome, timestamp: string)
      requires Valid()
      modifies this
      ensures Valid()
      ensures IsPending(old(processingMessage)) ==>
                chatHistory == old(chatHistory)
                  + [Entry("assistant", AssistantReply(agent(AgentInput(old(chatHistory)))), timestamp)]
                && processingMessage == None
      ensures IsPending(old(processingMessage)) ==>
                |AgentInput(old(chatHistory))| == |old(chatHistory)|
                && forall i :: 0 <= i < |old(chatHistory)| ==>
                     AgentInput(old(chatHistory))[i] == Message(old(chatHistory)[i].role, old(chatHistory)[i].content)
      ensures !IsPending(old(processingMessage)) ==>
                chatHistory == old(chatHistory) && processingMessage == old(processingMessage)
      ensures threadId == old(threadId)
    {
      if processingMessage.Some? && processingMessage.value != "" {
        AgentInputOfChatLog(chatHistory);
        var inputList := AgentInput(chatHistory);
        var outcome := agent(inputList);
        var entry := Entry("assistant", AssistantReply(outcome), timestamp);
        assert IsChatRole(entry.role);
        chatHistory := chatHistory + [entry];
        processingMessage := None;
      }
    }
  }
}
