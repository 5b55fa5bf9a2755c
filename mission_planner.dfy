/** The mission planner component: normalising the plan the model returns
    into the lists the page shows, parsing the plan, its summary and risk
    tone, and the submit handler. */
module MissionPlanner {
  import opened Wrappers
  import opened Strings
  import opened Collections
  import opened JsonValues
  import opened UiCommon

  // ---------------------------------------------------------------------
  // Objectives

  /** An objective as the model may write it; every field may be missing. */
  datatype ObjectiveIn = ObjectiveIn(
    title: Option<string>, name: Option<string>, focus: Option<string>,
    detail: Option<string>, description: Option<string>, domain: Option<string>,
    icon: Option<string>)

  datatype Objective = Objective(title: string, detail: string, icon: Option<string>)

  /** One objective: the title is the first of title, name and focus that is
      given, else "Mission Objective"; the detail the first of detail,
      description and focus, else empty; the icon is kept. */
  function NormaliseObjective(e: ObjectiveIn): (r: Objective)
    ensures e.title.Some? ==> r.title == e.title.value
    ensures e.title.None? && e.name.Some? ==> r.title == e.name.value
    ensures e.title.None? && e.name.None? ==> r.title == e.focus.GetOr("Mission Objective")
    ensures e.detail.Some? ==> r.detail == e.detail.value
    ensures e.detail.None? && e.description.Some? ==> r.detail == e.description.value
    ensures e.detail.None? && e.description.None? ==> r.detail == e.focus.GetOr("")
    ensures r.icon == e.icon
  {
    Objective(e.title.OrElse(e.name).OrElse(e.focus).GetOr("Mission Objective"),
              e.detail.OrElse(e.description).OrElse(e.focus).GetOr(""),
              e.icon)
  }

  /** A normalised objective read back as input. */
  function ObjectiveAsInput(o: Objective): ObjectiveIn {
    ObjectiveIn(Some(o.title), None, None, Some(o.detail), None, None, o.icon)
  }

  /** `normaliseObjectives`: nothing for a missing list, else one objective
      per entry, in order. */
  function NormaliseObjectives(value: Option<seq<ObjectiveIn>>): (r: seq<Objective>)
    ensures value.None? ==> r == []
    ensures value.Some? ==> |r| == |value.value|
    ensures value.Some? ==> forall i :: 0 <= i < |r| ==> r[i] == NormaliseObjective(value.value[i])
  {
    if value.None? then [] else Map(value.value, NormaliseObjective)
  }

  /** Normalising is a normal form: a normalised list normalises to itself. */
  lemma NormaliseObjectivesIdempotent(value: Option<seq<ObjectiveIn>>)
    ensures var r := NormaliseObjectives(value);
      NormaliseObjectives(Some(Map(r, ObjectiveAsInput))) == r
  {
  }

  // ---------------------------------------------------------------------
  // Recommendations

  datatype RecommendationIn = RecommendationIn(
    priority: Option<string>, title: Option<string>, headline: Option<string>,
    detail: Option<string>, details: Option<string>)

  datatype Recommendation = Recommendation(priority: string, title: Option<string>, headline: Option<string>, detail: string)

  /** One recommendation: the priority lower-cased, "medium" when missing;
      the headline falls back to the title; the detail to `details`, then
      empty. */
  function NormaliseRecommendation(e: RecommendationIn): (r: Recommendation)
    ensures e.priority.Some? ==> r.priority == Lower(e.priority.value)
    ensures e.priority.None? ==> r.priority == "medium"
    ensures forall i :: 0 <= i < |r.priority| ==> !IsUpper(r.priority[i])
    ensures r.title == e.title
    ensures r.headline == if e.headline.Some? then e.headline else e.title
    ensures r.detail == if e.detail.Some? then e.detail.value else e.details.GetOr("")
  {
    Recommendation(if e.priority.Some? then Lower(e.priority.value) else "medium",
                   e.title, e.headline.OrElse(e.title), e.detail.OrElse(e.details).GetOr(""))
  }

  function RecommendationAsInput(r: Recommendation): RecommendationIn {
    RecommendationIn(Some(r.priority), r.title, r.headline, Some(r.detail), None)
  }

  function NormaliseRecommendations(value: Option<seq<RecommendationIn>>): (r: seq<Recommendation>)
    ensures value.None? ==> r == []
    ensures value.Some? ==> |r| == |value.value|
    ensures value.Some? ==> forall i :: 0 <= i < |r| ==> r[i] == NormaliseRecommendation(value.value[i])
  {
    if value.None? then [] else Map(value.value, NormaliseRecommendation)
  }

  lemma NormaliseRecommendationsIdempotent(value: Option<seq<RecommendationIn>>)
    ensures var r := NormaliseRecommendations(value);
      NormaliseRecommendations(Some(Map(r, RecommendationAsInput))) == r
  {
    var r := NormaliseRecommendations(value);
    forall i | 0 <= i < |r| ensures NormaliseRecommendation(RecommendationAsInput(r[i])) == r[i] {
      LowerIdempotent(value.value[i].priority.GetOr("medium"));
      if value.value[i].priority.None? {
        assert Lower("medium") == "medium";
      }
    }
  }

  // ---------------------------------------------------------------------
  // Timeline

  datatype TimelineIn = TimelineIn(
    phase: Option<string>, window: Option<string>, timeframe: Option<string>, duration: Option<string>,
    milestones: Option<seq<string>>, activities: Option<seq<string>>, notes: Option<string>)

  datatype TimelineEntry = TimelineEntry(phase: Option<string>, window: Option<string>, milestones: seq<string>)

  /** One phase: the window is the first of window, timeframe and duration
      that is given; the milestones are `milestones`, else `activities`, else
      the notes as one milestone when they are not empty, else none. */
  function NormaliseTimelineEntry(e: TimelineIn): (r: TimelineEntry)
    ensures r.phase == e.phase
    ensures r.window == if e.window.Some? then e.window else if e.timeframe.Some? then e.timeframe else e.duration
    ensures e.milestones.Some? ==> r.milestones == e.milestones.value
    ensures e.milestones.None? && e.activities.Some? ==> r.milestones == e.activities.value
    ensures e.milestones.None? && e.activities.None? ==>
      r.milestones == if e.notes.Some? && e.notes.value != "" then [e.notes.value] else []
  {
    TimelineEntry(e.phase, e.window.OrElse(e.timeframe).OrElse(e.duration),
      if e.milestones.Some? then e.milestones.value
      else if e.activities.Some? then e.activities.value
      else if e.notes.Some? && e.notes.value != "" then [e.notes.value]
      else [])
  }

  function TimelineAsInput(t: TimelineEntry): TimelineIn {
    TimelineIn(t.phase, t.window, None, None, Some(t.milestones), None, None)
  }

  function NormaliseTimeline(value: Option<seq<TimelineIn>>): (r: seq<TimelineEntry>)
    ensures value.None? ==> r == []
    ensures value.Some? ==> |r| == |value.value|
    ensures value.Some? ==> forall i :: 0 <= i < |r| ==> r[i] == NormaliseTimelineEntry(value.value[i])
  {
    if value.None? then [] else Map(value.value, NormaliseTimelineEntry)
  }

  lemma NormaliseTimelineIdempotent(value: Option<seq<TimelineIn>>)
    ensures var r := NormaliseTimeline(value);
      NormaliseTimeline(Some(Map(r, TimelineAsInput))) == r
  {
  }

  // ---------------------------------------------------------------------
  // Resources

  /** An entry of a resource list. `value` is `None` when missing or `null`. */
  datatype ResourceItem = ResourceItem(
    caption: Option<string>,  // the `label` field
    status: Option<string>, value: Option<Json>,
    unit: Option<string>, current: Option<real>, capacity: Option<real>)

  /** `resources` is a list of entries or an object from names to values,
      given as `Object.entries` lists them. */
  datatype Resources = ResourceList(items: seq<ResourceItem>) | ResourceRecord(entries: seq<(string, Json)>)

  datatype Resource = Resource(
    caption: string,  // the `label` field
    status: Option<string>, value: Option<Json>,
    unit: Option<string>, current: Option<real>, capacity: Option<real>)

  function NumOf(x: Option<real>): Option<Json> {
    if x.Some? then Some(JNum(x.value)) else None
  }

  /** A list entry: the label defaults to "Resource" and a missing value to
      the current amount; the rest is copied. */
  function ListResource(item: ResourceItem): (r: Resource)
    ensures r.caption == item.caption.GetOr("Resource")
    ensures item.value.Some? && item.value.value != JNull ==> r.value == item.value
    ensures item.value.None? || item.value.value == JNull ==> r.value == NumOf(item.current)
    ensures r.status == item.status && r.unit == item.unit && r.current == item.current && r.capacity == item.capacity
  {
    Resource(item.caption.GetOr("Resource"), item.status, Nullish(item.value, NumOf(item.current)),
             item.unit, item.current, item.capacity)
  }

  /** A character that `\w` matches. */
  predicate IsWordChar(c: char) {
    'a' <= c <= 'z' || 'A' <= c <= 'Z' || '0' <= c <= '9' || c == '_'
  }

  /** `replace(/\b\w/g, (m) => m.toUpperCase())`: every word character that
      starts a word is upper-cased. */
  function TitleCase(s: string): (r: string)
    ensures |r| == |s|
    ensures forall i :: 0 <= i < |s| && IsWordChar(s[i]) && (i == 0 || !IsWordChar(s[i - 1])) ==> !IsLower(r[i])
    ensures forall i :: 0 <= i < |s| && !(IsWordChar(s[i]) && (i == 0 || !IsWordChar(s[i - 1]))) ==> r[i] == s[i]
  {
    seq(|s|, i requires 0 <= i < |s| => if IsWordChar(s[i]) && (i == 0 || !IsWordChar(s[i - 1])) then UpperChar(s[i]) else s[i])
  }

  /** The label of a named resource: underscores become spaces, then each
      word is capitalised. */
  function ResourceLabel(key: string): (name: string)
    ensures '_' !in name
    ensures |name| == |key|
  {
    ReplaceCharByChar(key, '_', ' ');
    TitleCase(ReplaceChar(key, '_', " "))
  }

  lemma LowerUpper(c: char)
    ensures LowerChar(UpperChar(c)) == LowerChar(c)
  {
  }

  /** The label differs from the key only in case, and in spaces where the
      key had underscores. */
  lemma ResourceLabelSpec(key: string)
    ensures var name := ResourceLabel(key);
      forall i :: 0 <= i < |key| ==> LowerChar(name[i]) == LowerChar(if key[i] == '_' then ' ' else key[i])
  {
    ReplaceCharByChar(key, '_', ' ');
    forall i | 0 <= i < |key| ensures LowerChar(ResourceLabel(key)[i]) == LowerChar(if key[i] == '_' then ' ' else key[i]) {
      LowerUpper(ReplaceChar(key, '_', " ")[i]);
    }
  }

  function StrOf(x: Option<Json>): Option<string> {
    if x.Some? && x.value.JStr? then Some(x.value.s) else None
  }

  function RealOf(x: Option<Json>): Option<real> {
    if x.Some? && x.value.JNum? then Some(x.value.n) else None
  }

  /** A present value whose `typeof` is "string" or "number". */
  predicate TextOrNumber(v: Option<Json>) {
    v.Some? && (v.value.JStr? || v.value.JNum?)
  }

  /** An entry of a resource object. An object value gives a labelled entry
      whose fields keep only values of the expected type, the value falling
      back to a numeric current amount; any other value (also `null`) is
      the value itself under the raw name. */
  function RecordResource(key: string, entry: Json): (r: Resource)
    ensures Truthy(entry) && IsObject(entry) ==> r.caption == ResourceLabel(key)
    ensures Truthy(entry) && IsObject(entry) ==>
      && (r.value.Some? ==> r.value.value.JStr? || r.value.value.JNum?)
      && r.status == StrOf(Prop(entry, "status"))
      && r.current == RealOf(Prop(entry, "current"))
      && r.unit == StrOf(Prop(entry, "unit"))
      && r.capacity == RealOf(Prop(entry, "capacity"))
    ensures Truthy(entry) && IsObject(entry) && TextOrNumber(Prop(entry, "value")) ==> r.value == Prop(entry, "value")
    ensures Truthy(entry) && IsObject(entry) && !TextOrNumber(Prop(entry, "value")) ==>
      (r.value.Some? <==> r.current.Some?) && (r.current.Some? ==> r.value == Some(JNum(r.current.value)))
    ensures !(Truthy(entry) && IsObject(entry)) ==> r == Resource(key, None, Some(entry), None, None, None)
  {
    if Truthy(entry) && IsObject(entry) then
      var v := Prop(entry, "value");
      Resource(ResourceLabel(key),
               StrOf(Prop(entry, "status")),
               if TextOrNumber(v) then v else NumOf(RealOf(Prop(entry, "current"))),
               StrOf(Prop(entry, "unit")),
               RealOf(Prop(entry, "current")),
               RealOf(Prop(entry, "capacity")))
    else Resource(key, None, Some(entry), None, None, None)
  }

  /** `normaliseResources`: nothing when missing; one entry per list item or
      per named value, in order. */
  function NormaliseResources(value: Option<Resources>): (r: seq<Resource>)
    ensures value.None? ==> r == []
    ensures value.Some? && value.value.ResourceList? ==>
      && |r| == |value.value.items|
      && forall i :: 0 <= i < |r| ==> r[i] == ListResource(value.value.items[i])
    ensures value.Some? && value.value.ResourceRecord? ==>
      && |r| == |value.value.entries|
      && forall i :: 0 <= i < |r| ==> r[i] == RecordResource(value.value.entries[i].0, value.value.entries[i].1)
  {
    match value
    case None => []
    case Some(ResourceList(items)) => Map(items, ListResource)
    case Some(ResourceRecord(entries)) => Map(entries, (e: (string, Json)) => RecordResource(e.0, e.1))
  }

  /** The labels of a named resource object contain no underscore for object
      values, and are the raw names for the others. */
  lemma RecordLabels(entries: seq<(string, Json)>)
    ensures var r := NormaliseResources(Some(ResourceRecord(entries)));
      forall i :: 0 <= i < |r| ==>
        (Truthy(entries[i].1) && IsObject(entries[i].1) ==> '_' !in r[i].caption && |r[i].caption| == |entries[i].0|)
        && (!(Truthy(entries[i].1) && IsObject(entries[i].1)) ==> r[i].caption == entries[i].0 && r[i].value == Some(entries[i].1))
  {
  }

  // ---------------------------------------------------------------------
  // Parsing the plan

  /** `safeParsePlan`: a falsy value is `null`; a string is parsed (`parse`
      is `JSON.parse`, `None` when it throws, which gives `null`); an object
      or array is kept; anything else is `null`. */
  function SafeParsePlan(raw: Option<Json>, parse: string -> Option<Json>): (plan: Json)
    ensures raw.None? || !Truthy(raw.value) ==> plan == JNull
    ensures raw.Some? && Truthy(raw.value) && raw.value.JStr? ==> plan == parse(raw.value.s).GetOr(JNull)
    ensures raw.Some? && Truthy(raw.value) && IsObject(raw.value) ==> plan == raw.value
    ensures raw.Some? && (raw.value.JBool? || raw.value.JNum?) ==> plan == JNull
  {
    if raw.None? || !Truthy(raw.value) then JNull
    else if raw.value.JStr? then parse(raw.value.s).GetOr(JNull)
    else if IsObject(raw.value) then raw.value
    else JNull
  }

  /** A value that is not text parses to `null` or to itself, and an object
      that was parsed once is kept by parsing it again. */
  lemma SafeParsePlanSpec(raw: Option<Json>, parse: string -> Option<Json>)
    ensures raw.Some? && !raw.value.JStr? ==> SafeParsePlan(raw, parse) in {JNull, raw.value}
    ensures IsObject(SafeParsePlan(raw, parse)) ==>
      SafeParsePlan(Some(SafeParsePlan(raw, parse)), parse) == SafeParsePlan(raw, parse)
  {
  }

  /** The plan read from the planner's response `data` as written: `data.plan`,
      else `data` itself; the `answer` fallback is only reached when `data`
      is missing or `null`. */
  function PlanOfAsWritten(data: Option<Json>, parse: string -> Option<Json>): Json {
    var dataProp := if data.Some? then data.value else JNull;
    var rawPlan := Nullish(Prop(dataProp, "plan"), data);
    SafeParsePlan(Nullish(rawPlan, Prop(dataProp, "answer")), parse)
  }

  /** A reply carrying the plan as JSON text in `answer`, the shape the chat
      endpoint answers with, is taken as the plan itself: the text is never
      parsed. */
  lemma AnswerNeverParsed(text: string, parse: string -> Option<Json>)
    ensures var data := JObj(map["answer" := JStr(text)]);
      PlanOfAsWritten(Some(data), parse) == data
  {
    var data := JObj(map["answer" := JStr(text)]);
    assert "plan" !in data.fields;
  }

  /** The plan read from the response as evidently intended: `data.plan`,
      else the `answer` text, else `data` itself. */
  function PlanOf(data: Option<Json>, parse: string -> Option<Json>): (plan: Json)
    ensures data.Some? ==> var p := Prop(data.value, "plan");
      p.Some? && p.value != JNull ==> plan == SafeParsePlan(p, parse)
  {
    var dataProp := if data.Some? then data.value else JNull;
    SafeParsePlan(Nullish(Prop(dataProp, "plan"), Nullish(Prop(dataProp, "answer"), data)), parse)
  }

  /** The intended reading parses the `answer` text when there is no plan,
      and agrees with the written one whenever a plan is present. */
  lemma PlanOfSpec(data: Json, parse: string -> Option<Json>)
    ensures var p := Prop(data, "plan"); var a := Prop(data, "answer");
      && ((p.None? || p.value == JNull) && a.Some? && a.value.JStr? && a.value.s != "" ==>
            PlanOf(Some(data), parse) == parse(a.value.s).GetOr(JNull))
      && (p.Some? && p.value != JNull ==> PlanOf(Some(data), parse) == PlanOfAsWritten(Some(data), parse))
  {
  }

  // ---------------------------------------------------------------------
  // Summary and risk

  datatype SummaryContent = SummaryContent(
    title: Option<string>, tagline: Option<string>, overview: Option<string>, description: Option<string>,
    missionName: Option<string>, launchWindow: Option<string>, destination: Option<string>,
    crewComposition: Option<string>, highlight: Option<string>)

  datatype MissionSummary = SummaryText(text: string) | SummaryObject(content: SummaryContent)

  const NoContent := SummaryContent(None, None, None, None, None, None, None, None, None)

  /** The summary shown: a text becomes the overview alone; an object is
      shown as it is; an empty text, like a missing summary, shows nothing. */
  function SummaryOf(summary: Option<MissionSummary>): (c: Option<SummaryContent>)
    ensures summary.Some? && summary.value.SummaryText? && summary.value.text != "" ==>
      c == Some(NoContent.(overview := Some(summary.value.text)))
    ensures summary.Some? && summary.value.SummaryObject? ==> c == Some(summary.value.content)
    ensures c.None? <==> summary.None? || summary.value == SummaryText("")
  {
    match summary
    case None => None
    case Some(SummaryText(s)) => if s == "" then None else Some(NoContent.(overview := Some(s)))
    case Some(SummaryObject(content)) => Some(content)
  }

  datatype Tone = High | Medium | Low

  /** The risk badge: none without a risk level; else the tone named by the
      lower-cased level, "medium" for any other name. */
  function RiskTone(level: Option<string>): (t: Option<Tone>)
    ensures t.None? <==> level.None? || level.value == ""
    ensures t == Some(High) <==> level.Some? && Lower(level.value) == "high"
    ensures t == Some(Low) <==> level.Some? && Lower(level.value) == "low"
  {
    if level.None? || level.value == "" then None
    else
      var l := Lower(level.value);
      if l == "high" then Some(High) else if l == "low" then Some(Low) else Some(Medium)
  }

  /** The tone ignores case. */
  lemma RiskToneIgnoresCase(level: string)
    ensures RiskTone(Some(level)) == RiskTone(Some(Lower(level)))
  {
    LowerIdempotent(level);
  }

  // ---------------------------------------------------------------------
  // Submitting a brief

  /** The outcome of `chat.planMission`: the response's `data`, or a failure. */
  datatype PlanReply = PlanData(data: Option<Json>) | PlanFailed(failure: Failure)

  /** The component's state. */
  datatype PlannerState = PlannerState(
    chatUuid: Option<string>, isInitializing: bool, prompt: string, loading: bool,
    error: Option<string>, plan: Json, messages: seq<UiMessage>)

  const BlankBrief := "Describe what kind of mission you want to plan."
  const NoSession := "Unable to initialise mission planner session."
  const Unreadable := "The mission planner could not interpret the response."
  const SubmitFallback := "Mission planner could not generate a response."
  const PlanNote := "Mission plan generated."

  /** The state once `ensureChat` has run: a new session is stored, and the
      initialising flag is down again whenever it was raised. */
  function Opened(s: PlannerState, create: CreateReply): PlannerState {
    if s.chatUuid.Some? && s.chatUuid.value != "" then s
    else match EnsureChat(s.chatUuid, create, NoSession)
      case Ok(u) => s.(chatUuid := Some(u), error := None, isInitializing := false)
      case Err(f) => s.(error := Some(MessageOf(f, "Mission planner service is unavailable.")), isInitializing := false)
  }

  /** The state after the reply was read, the user's message being shown. */
  function Answered(s: PlannerState, reply: PlanReply, parse: string -> Option<Json>, assistantId: string): PlannerState {
    match reply
    case PlanFailed(f) => s.(error := Some(MessageOf(f, SubmitFallback)))
    case PlanData(data) =>
      var parsed := PlanOf(data, parse);
      if !Truthy(parsed) then s.(error := Some(Unreadable))
      else s.(plan := parsed, messages := s.messages + [UiMessage(assistantId, AssistantRole, PlanNote, false)], prompt := "")
  }

  /** `handleSubmit` as a change of state. */
  function Submitted(s: PlannerState, create: CreateReply, reply: PlanReply, parse: string -> Option<Json>,
                     userId: string, assistantId: string): PlannerState {
    var brief := Strip(s.prompt);
    if brief == "" then s.(error := Some(BlankBrief))
    else
      var s1 := Opened(s.(error := None, loading := true), create);
      var session := EnsureChat(s.chatUuid, create, NoSession);
      if session.Err? then s1.(error := Some(MessageOf(session.error, SubmitFallback)), loading := false)
      else
        var s2 := s1.(messages := s1.messages + [UiMessage(userId, UserRole, brief, false)]);
        Answered(s2, reply, parse, assistantId).(loading := false)
  }

  /** A blank brief only sets the error; no call is made. */
  lemma SubmitBlank(s: PlannerState, create: CreateReply, reply: PlanReply, parse: string -> Option<Json>, userId: string, assistantId: string)
    requires forall i :: 0 <= i < |s.prompt| ==> IsSpace(s.prompt[i])
    ensures Submitted(s, create, reply, parse, userId, assistantId) == s.(error := Some(BlankBrief))
  {
    StripAllSpace(s.prompt);
  }

  /** Whatever happens, a brief that is not blank leaves the component not
      loading, and keeps or extends the message list: by nothing when no
      session opens, else by the trimmed brief and, when a plan is read,
      the assistant's note; the plan shown is then the one read and the
      prompt is cleared. Otherwise the plan and the prompt stay and the
      error says why. */
  lemma SubmitSpec(s: PlannerState, create: CreateReply, reply: PlanReply, parse: string -> Option<Json>, userId: string, assistantId: string)
    requires Strip(s.prompt) != ""
    ensures var t := Submitted(s, create, reply, parse, userId, assistantId);
      var session := EnsureChat(s.chatUuid, create, NoSession);
      var user := UiMessage(userId, UserRole, Strip(s.prompt), false);
      var planned := reply.PlanData? && Truthy(PlanOf(reply.data, parse));
      && !t.loading
      && (session.Err? ==> t.messages == s.messages && t.error == Some(MessageOf(session.error, SubmitFallback)))
      && (session.Ok? ==> t.chatUuid == Some(session.value))
      && (session.Ok? && !planned ==> t.messages == s.messages + [user] && t.error.Some?)
      && (session.Ok? && planned ==>
            && t.messages == s.messages + [user, UiMessage(assistantId, AssistantRole, PlanNote, false)]
            && t.plan == PlanOf(reply.data, parse) && t.prompt == "" && t.error == None)
      && (!(session.Ok? && planned) ==> t.plan == s.plan && t.prompt == s.prompt)
  {
  }

  /** `handleSubmit` when no session could be opened, step by step: `s1`
      loading, `s2` after `ensureChat`, `t` at the end. */
  lemma SubmitNoSession(s: PlannerState, s1: PlannerState, s2: PlannerState, t: PlannerState, create: CreateReply, reply: PlanReply,
                        parse: string -> Option<Json>, userId: string, assistantId: string)
    requires Strip(s.prompt) != "" && s1 == s.(error := None, loading := true) && s2 == Opened(s1, create)
    requires EnsureChat(s.chatUuid, create, NoSession).Err?
    requires t == s2.(error := Some(MessageOf(EnsureChat(s.chatUuid, create, NoSession).error, SubmitFallback)), loading := false)
    ensures t == Submitted(s, create, reply, parse, userId, assistantId)
  {
  }

  /** `handleSubmit` once a session is open, step by step: `s1` loading,
      `s2` after `ensureChat`, `t` at the end. */
  lemma SubmitAnswered(s: PlannerState, s1: PlannerState, s2: PlannerState, t: PlannerState,
                       create: CreateReply, reply: PlanReply, parse: string -> Option<Json>, userId: string, assistantId: string)
    requires Strip(s.prompt) != "" && s1 == s.(error := None, loading := true) && s2 == Opened(s1, create)
    requires EnsureChat(s.chatUuid, create, NoSession).Ok?
    requires t == Answered(s2.(messages := s2.messages + [UiMessage(userId, UserRole, Strip(s.prompt), false)]), reply, parse, assistantId).(loading := false)
    ensures t == Submitted(s, create, reply, parse, userId, assistantId)
  {
  }

  class MissionPlannerView {
    var chatUuid: Option<string>
    var isInitializing: bool
    var prompt: string
    var loading: bool
    var error: Option<string>
    var plan: Json
    var messages: seq<UiMessage>

    function State(): PlannerState
      reads this
    {
      PlannerState(chatUuid, isInitializing, prompt, loading, error, plan, messages)
    }

    constructor()
      ensures State() == PlannerState(None, true, "", false, None, JNull, [])
    {
      chatUuid := None;
      isInitializing := true;
      prompt := "";
      loading := false;
      error := None;
      plan := JNull;
      messages := [];
    }

    /** `ensureChat`; `create` is the outcome of `chat.create` when it is called. */
    method EnsureSession(create: CreateReply) returns (session: Result<string, Failure>)
      modifies this
      ensures session == EnsureChat(old(chatUuid), create, NoSession)
      ensures State() == Opened(old(State()), create)
    {
      session := EnsureChat(chatUuid, create, NoSession);
      if chatUuid.Some? && chatUuid.value != "" {
        return;
      }
      isInitializing := true;
      if session.Ok? {
        chatUuid := Some(session.value);
        error := None;
      } else {
        error := Some(MessageOf(session.error, "Mission planner service is unavailable."));
      }
      isInitializing := false;
    }

    /** Reading the planning call's outcome into the state. */
    method ReadReply(reply: PlanReply, parse: string -> Option<Json>, assistantId: string)
      modifies this
      ensures State() == Answered(old(State()), reply, parse, assistantId)
    {
      match reply {
        case PlanFailed(f) =>
          error := Some(MessageOf(f, SubmitFallback));
        case PlanData(data) =>
          var parsed := PlanOf(data, parse);
          if !Truthy(parsed) {
            error := Some(Unreadable);
          } else {
            plan := parsed;
            messages := messages + [UiMessage(assistantId, AssistantRole, PlanNote, false)];
            prompt := "";
          }
      }
    }

    /** `handleSubmit`: `reply` is the outcome of the planning call,
        `userId`/`assistantId` the new messages' ids. */
    method Submit(create: CreateReply, reply: PlanReply, parse: string -> Option<Json>, userId: string, assistantId: string)
      modifies this
      ensures State() == Submitted(old(State()), create, reply, parse, userId, assistantId)
    {
      ghost var s0 := State();
      var brief := Strip(prompt);
      if brief == "" {
        error := Some(BlankBrief);
        return;
      }
      error := None;
      loading := true;
      ghost var s1 := State();
      var session := EnsureSession(create);
      ghost var s2 := State();
      if session.Err? {
        error := Some(MessageOf(session.error, SubmitFallback));
        loading := false;
        SubmitNoSession(s0, s1, s2, State(), create, reply, parse, userId, assistantId);
        return;
      }
      SendBrief(brief, reply, parse, userId, assistantId);
      SubmitAnswered(s0, s1, s2, State(), create, reply, parse, userId, assistantId);
    }

    /** The rest of `handleSubmit` once the session is open: the brief is
        shown, the reply is read, and loading ends. */
    method SendBrief(brief: string, reply: PlanReply, parse: string -> Option<Json>, userId: string, assistantId: string)
      modifies this
      ensures State() == Answered(old(State()).(messages := old(messages) + [UiMessage(userId, UserRole, brief, false)]),
                                  reply, parse, assistantId).(loading := false)
    {
      messages := messages + [UiMessage(userId, UserRole, brief, false)];
      ReadReply(reply, parse, assistantId);
      loading := false;
    }
  }
}
