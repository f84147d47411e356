/**
 * The tutor chat endpoint: after the authentication guard it reads the caller's
 * profile row and completed resources, assembles the tutor's system prompt, and
 * hands that prompt and the request's messages to the text generator, whose
 * stream becomes the response. The generator is an opaque sink: the model records
 * what it is given.
 */
module ChatRoute {
  import opened Wrappers
  import opened Text
  import opened Auth
  import opened Domains
  import opened Schema

  datatype Message = Message(role: string, content: string)

  /** A value thrown inside the handler: an `Error` with its message, or anything else. */
  datatype Thrown = ErrorObject(message: string) | OtherValue

  /**
   * The parsed request body: its `messages`, or what parsing it, or reading its
   * `messages`, threw (a body without `messages` throws at `messages.length`).
   */
  datatype RequestBody = Messages(messages: seq<Message>) | Malformed(thrown: Thrown)

  /** What the generator is asked for: a system prompt and the conversation so far. */
  datatype GeneratorCall = GeneratorCall(system: string, messages: seq<Message>)

  datatype Response =
    | TextResponse(status: nat, body: string)
    | JsonError(status: nat, error: string)  // body `{"error": <error>}`, JSON content type
    | Streamed(call: GeneratorCall)          // the generator's text stream, status 200

  /**
   * `selectedDomain ? domainNames[selectedDomain] || selectedDomain : "your chosen field"`,
   * where a missing profile row counts as no domain.
   */
  function DomainDisplayName(user: Option<User>): (r: string)
    ensures user.None? ==> r == "your chosen field"
    ensures user.Some? && !Truthy(user.value.selectedDomain) ==> r == "your chosen field"
    ensures user.Some? && Truthy(user.value.selectedDomain) ==> r == Label(user.value.selectedDomain.value)
    ensures r != ""
  {
    if user.Some? && Truthy(user.value.selectedDomain) then Label(user.value.selectedDomain.value)
    else "your chosen field"
  }

  /** A progress row that the completed-resources query keeps: the caller's, completed, and joined to a resource. */
  predicate Joins(p: Progress, userId: UserId, resources: map<ResourceId, Resource>) {
    p.userId == userId && p.isCompleted && p.resourceId in resources
  }

  /**
   * The inner join of `user_progress` with `resources` filtered on the caller and on
   * `isCompleted`, in the order the progress rows are scanned.
   */
  function CompletedResources(scan: seq<Progress>, resources: map<ResourceId, Resource>, userId: UserId)
    : (r: seq<Resource>)
    ensures |r| <= |scan|
    ensures forall x :: x in r <==>
              exists i :: 0 <= i < |scan| && Joins(scan[i], userId, resources) && resources[scan[i].resourceId] == x
  {
    if scan == [] then []
    else
      var n := |scan| - 1;
      var rest := CompletedResources(scan[..n], resources, userId);
      assert forall i :: 0 <= i < n ==> scan[..n][i] == scan[i];
      if Joins(scan[n], userId, resources) then rest + [resources[scan[n].resourceId]] else rest
  }

  /** The join keeps scan order: joining two stretches of rows is joining each in turn. */
  lemma {:induction false} CompletedResourcesAppend(a: seq<Progress>, b: seq<Progress>,
                                                    resources: map<ResourceId, Resource>, userId: UserId)
    ensures CompletedResources(a + b, resources, userId)
              == CompletedResources(a, resources, userId) + CompletedResources(b, resources, userId)
  {
    if b == [] {
      assert a + b == a;
    } else {
      var n := |b| - 1;
      assert (a + b)[..|a + b| - 1] == a + b[..n];
      CompletedResourcesAppend(a, b[..n], resources, userId);
    }
  }

  /** With the schema's constraints, the join holds exactly the resources of the caller's completed progress rows. */
  lemma CompletedResourcesMatchTables(t: Tables, scan: seq<Progress>, userId: UserId)
    requires Valid(t) && ScanOf(scan, t.progress)
    ensures forall x :: x in CompletedResources(scan, t.resources, userId) <==>
              exists k :: k in t.progress && k.0 == userId && t.progress[k].isCompleted &&
                          k.1 in t.resources && t.resources[k.1] == x
  {
  }

  /** One completed resource as listed in the prompt: `${title} (${type})`. */
  function Render(x: Resource): string {
    x.title + " (" + x.kind + ")"
  }

  function Renders(items: seq<Resource>): (r: seq<string>)
    ensures |r| == |items|
    ensures forall i :: 0 <= i < |items| ==> r[i] == Render(items[i])
  {
    seq(|items|, i requires 0 <= i < |items| => Render(items[i]))
  }

  /**
   * The completed list: the rendered resources joined by ", ", or "none yet" when
   * there are none. The two cases cannot be confused: a rendered list ends with ")".
   */
  function CompletedList(items: seq<Resource>): (s: string)
    ensures s == "none yet" <==> |items| == 0
  {
    if |items| > 0 then
      var parts := Renders(items);
      JoinEndsWithLast(parts, ", ");
      assert Join(parts, ", ")[|Join(parts, ", ")| - 1] == parts[|parts| - 1][|parts[|parts| - 1]| - 1] == ')';
      Join(parts, ", ")
    else "none yet"
  }

  /** A single completed resource is listed as just its rendering, with no separator or decoration. */
  lemma CompletedListSingle(x: Resource)
    ensures CompletedList([x]) == Render(x)
  {
  }

  /** Every completed resource is named in the list as `title (type)`. */
  lemma CompletedListMentionsEach(items: seq<Resource>, i: nat)
    requires i < |items|
    ensures Contains(CompletedList(items), Render(items[i]))
  {
    JoinContainsEach(Renders(items), ", ", i);
  }

  /** The list keeps row order: the list of two stretches is their lists around one ", ". */
  lemma CompletedListAppend(a: seq<Resource>, b: seq<Resource>)
    requires |a| > 0 && |b| > 0
    ensures CompletedList(a + b) == CompletedList(a) + ", " + CompletedList(b)
  {
    assert Renders(a + b) == Renders(a) + Renders(b);
    JoinAppend(Renders(a), Renders(b), ", ");
  }

  // The fixed text of the system prompt template, cut where the values go in.
  const Opening: string := "You are an expert AI tutor specializing in "
  const ReportLead: string := "The user has completed the following resources: "
  const RoleIntro: string :=
    "\n\nYour role is to:\n"
    + "- Guide the user on what to learn next based on their progress\n"
    + "- Provide personalized recommendations for their learning journey\n"
  const AnswerLead: string := "- Answer questions related to "
  const Closing: string :=
    "- Keep your answers concise, clear, and encouraging\n"
    + "- Suggest specific topics, concepts, or skills they should focus on\n"
    + "- Help them understand complex topics in simple terms\n\n"
    + "Be supportive, motivating, and focused on helping them achieve their learning goals."

  /** The system prompt template filled with the domain display name and the completed list. */
  function SystemPrompt(domain: string, completed: string): (r: string)
    ensures OccursAt(Opening + domain + ". ", r, 0)
    ensures Contains(r, RoleIntro)
    ensures EndsWith(r, Closing)
  {
    TemplateMentions(Opening, domain, ". ", "\n\n", ReportLead, completed, ".", RoleIntro, AnswerLead, "\n", Closing);
    Opening + domain + ". " + "\n\n" + ReportLead + completed + "." + RoleIntro + AnswerLead + domain + "\n" + Closing
  }

  /**
   * The prompt opens by naming the domain, reports the completed list followed by
   * ".", states the tutor's role (guide the next steps, recommend), and names the
   * domain again in the "Answer questions" line.
   */
  lemma SystemPromptMentions(domain: string, completed: string)
    ensures OccursAt(Opening + domain + ". ", SystemPrompt(domain, completed), 0)
    ensures Contains(SystemPrompt(domain, completed), ReportLead + completed + ".")
    ensures Contains(SystemPrompt(domain, completed), RoleIntro)
    ensures Contains(SystemPrompt(domain, completed), AnswerLead + domain + "\n")
  {
    TemplateMentions(Opening, domain, ". ", "\n\n", ReportLead, completed, ".", RoleIntro, AnswerLead, "\n", Closing);
  }

  /** `SystemPromptMentions` for any text around the two values. */
  lemma TemplateMentions(opening: string, domain: string, stop: string, gap: string, lead: string,
                         completed: string, dot: string, intro: string, answerLead: string,
                         newline: string, closing: string)
    ensures var p := opening + domain + stop + gap + lead + completed + dot + intro + answerLead + domain + newline + closing;
            && OccursAt(opening + domain + stop, p, 0)
            && Contains(p, lead + completed + dot)
            && Contains(p, intro)
            && Contains(p, answerLead + domain + newline)
  {
    var p := opening + domain + stop + gap + lead + completed + dot + intro + answerLead + domain + newline + closing;
    var first := opening + domain + stop;
    var report := lead + completed + dot;
    var answer := answerLead + domain + newline;
    assert p == first + (gap + report + intro + answer + closing);
    assert p[..|first|] == first;
    assert p == (first + gap) + report + (intro + answer + closing);
    ContainsInfix(first + gap, report, intro + answer + closing);
    assert p == (first + gap + report) + intro + (answer + closing);
    ContainsInfix(first + gap + report, intro, answer + closing);
    assert p == (first + gap + report + intro) + answer + closing;
    ContainsInfix(first + gap + report + intro, answer, closing);
  }

  /** The prompt assembled for a caller from a snapshot of the tables (progress rows in scan order). */
  function AssemblePrompt(t: Tables, scan: seq<Progress>, userId: UserId): (r: string)
    ensures OccursAt(Opening + DomainDisplayName(FindUser(t.users, userId)) + ". ", r, 0)
    ensures EndsWith(r, Closing)
  {
    SystemPrompt(DomainDisplayName(FindUser(t.users, userId)),
                 CompletedList(CompletedResources(scan, t.resources, userId)))
  }

  /**
   * What the assembled prompt says about the caller's progress: every completed
   * resource by `title (type)`, or "none yet" when the caller has completed nothing.
   */
  lemma AssembledPromptReportsProgress(t: Tables, scan: seq<Progress>, userId: UserId)
    requires Valid(t) && ScanOf(scan, t.progress)
    ensures (forall k :: k in t.progress && k.0 == userId ==> !t.progress[k].isCompleted) ==>
              Contains(AssemblePrompt(t, scan, userId), "none yet")
    ensures forall k :: k in t.progress && k.0 == userId && t.progress[k].isCompleted ==>
              Contains(AssemblePrompt(t, scan, userId), Render(t.resources[k.1]))
  {
    var items := CompletedResources(scan, t.resources, userId);
    var list := CompletedList(items);
    var prompt := AssemblePrompt(t, scan, userId);
    var domain := DomainDisplayName(FindUser(t.users, userId));
    CompletedResourcesMatchTables(t, scan, userId);
    SystemPromptMentions(domain, list);
    var report := ReportLead + list + ".";
    ContainsInfix(ReportLead, list, ".");
    ContainsTransitive(prompt, report, list);
    if |items| > 0 {
      assert items[0] in items;
    }
    forall k | k in t.progress && k.0 == userId && t.progress[k].isCompleted
      ensures Contains(prompt, Render(t.resources[k.1]))
    {
      var x := t.resources[k.1];
      assert x in items;
      var i :| 0 <= i < |items| && items[i] == x;
      CompletedListMentionsEach(items, i);
      ContainsTransitive(prompt, list, Render(x));
    }
  }

  /** A thrown `Error` becomes a JSON 500 carrying its message; anything else a plain 500. */
  function ErrorResponse(e: Thrown): (r: Response)
    ensures !r.Streamed? && r.status == 500
    ensures e.ErrorObject? <==> r.JsonError?
    ensures e.ErrorObject? ==> r.error == e.message
    ensures e.OtherValue? ==> r.body == "Internal Server Error"
  {
    match e
    case ErrorObject(message) => JsonError(500, message)
    case OtherValue => TextResponse(500, "Internal Server Error")
  }

  /**
   * `POST /api/chat`. An unauthenticated caller gets 401 whatever the body, tables
   * or generator would do; otherwise the generator is called with the assembled
   * prompt and the request's messages as they came, unless something threw.
   * `generatorError` is what calling the generator throws, if anything.
   */
  function Post(userId: Option<string>, body: RequestBody, t: Tables, scan: seq<Progress>,
                generatorError: Option<Thrown>): (r: Response)
    ensures !SignedIn(userId) ==> r == TextResponse(401, "Unauthorized")
    ensures SignedIn(userId) && body.Malformed? ==> r == ErrorResponse(body.thrown)
    ensures SignedIn(userId) && body.Messages? && generatorError.Some? ==> r == ErrorResponse(generatorError.value)
    ensures r.Streamed? <==> SignedIn(userId) && body.Messages? && generatorError.None?
    ensures r.Streamed? ==> r.call == GeneratorCall(AssemblePrompt(t, scan, userId.value), body.messages)
  {
    if !SignedIn(userId) then TextResponse(401, "Unauthorized")
    else match body
      case Malformed(thrown) => ErrorResponse(thrown)
      case Messages(messages) =>
        var system := AssemblePrompt(t, scan, userId.value);
        if generatorError.Some? then ErrorResponse(generatorError.value)
        else Streamed(GeneratorCall(system, messages))
  }
}
