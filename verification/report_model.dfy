/**
 * The configuration cache report page model: problems imported from the
 * JavaScript data model become problem nodes and pretty text, and each problem
 * becomes one node path for the "grouped by message" tree and one for the
 * "grouped by task" tree.
 */
module ReportModel {
  import opened Wrappers
  import opened Seqs

  /** One fragment of a problem message. */
  datatype Fragment = Text(text: string) | Reference(name: string)

  datatype PrettyText = PrettyText(fragments: seq<Fragment>)

  /** A node of the report's trees. */
  datatype ProblemNode =
    | Label(text: string)
    | Task(path: string, typeName: string)
    | Bean(typeName: string)
    | Property(kind: string, name: string, owner: string)
    | Error(labelNode: ProblemNode, docLink: Option<ProblemNode>)
    | Warning(labelNode: ProblemNode, docLink: Option<ProblemNode>)
    | Exception(message: string)
    | Message(prettyText: PrettyText)
    | Link(href: string, caption: string)

  /**
   * A trace element of the JavaScript model. Which fields are meaningful depends
   * on `kind`; the record carries every field any kind reads.
   */
  datatype JsTrace = JsTrace(kind: string, path: string, typeName: string, name: string,
                             declaringType: string, task: string)

  /** A message fragment of the JavaScript model: both fields are nullable. */
  datatype JsMessageFragment = JsMessageFragment(text: Option<string>, name: Option<string>)

  datatype JsProblem = JsProblem(trace: seq<JsTrace>, message: seq<JsMessageFragment>,
                                 error: Option<string>, documentationLink: Option<string>)

  datatype JsModel = JsModel(cacheAction: string, documentationLink: string, problems: seq<JsProblem>)

  datatype ImportedProblem = ImportedProblem(problem: JsProblem, message: PrettyText, trace: seq<ProblemNode>)

  /** The trace kinds the report recognises. */
  predicate KnownKind(kind: string)
  {
    kind in {"Task", "Bean", "Field", "InputProperty", "OutputProperty"}
  }

  /** `toProblemNode`: one trace element to its node; any unknown kind is the Gradle runtime. */
  function ToProblemNode(trace: JsTrace): (r: ProblemNode)
    ensures trace.kind == "Task" ==> r == Task(trace.path, trace.typeName)
    ensures trace.kind == "Bean" ==> r == Bean(trace.typeName)
    ensures trace.kind == "Field" ==> r == Property("field", trace.name, trace.declaringType)
    ensures trace.kind == "InputProperty" ==> r == Property("input property", trace.name, trace.task)
    ensures trace.kind == "OutputProperty" ==> r == Property("output property", trace.name, trace.task)
    ensures !KnownKind(trace.kind) ==> r == Label("Gradle runtime")
  {
    match trace.kind
    case "Task" => Task(trace.path, trace.typeName)
    case "Bean" => Bean(trace.typeName)
    case "Field" => Property("field", trace.name, trace.declaringType)
    case "InputProperty" => Property("input property", trace.name, trace.task)
    case "OutputProperty" => Property("output property", trace.name, trace.task)
    case _ => Label("Gradle runtime")
  }

  /** The trace kind a node was made from; the Gradle runtime label has none. */
  function KindOf(node: ProblemNode): Option<string>
  {
    match node
    case Task(_, _) => Some("Task")
    case Bean(_) => Some("Bean")
    case Property("field", _, _) => Some("Field")
    case Property("input property", _, _) => Some("InputProperty")
    case Property("output property", _, _) => Some("OutputProperty")
    case _ => None
  }

  /**
   * The node keeps the kind it came from: a known kind is recovered from the
   * node, and only an unknown kind becomes the Gradle runtime label.
   */
  lemma ProblemNodeKeepsKind(trace: JsTrace)
    ensures KnownKind(trace.kind) ==> KindOf(ToProblemNode(trace)) == Some(trace.kind)
    ensures !KnownKind(trace.kind) <==> ToProblemNode(trace) == Label("Gradle runtime")
  {
  }

  /** The text of a fragment with neither text nor name. */
  function UnrecognisedFragment(json: string): string
  {
    "Unrecognised message fragment: " + json
  }

  /**
   * `toPrettyText`: a fragment's text wins over its name; a fragment with
   * neither is reported as unrecognised, with its JSON form given by `stringify`.
   */
  function ToPrettyText(message: seq<JsMessageFragment>, stringify: JsMessageFragment -> string): (r: PrettyText)
    ensures |r.fragments| == |message|
    ensures forall i :: 0 <= i < |message| && message[i].text.Some? ==> r.fragments[i] == Text(message[i].text.value)
    ensures forall i :: 0 <= i < |message| && message[i].text.None? && message[i].name.Some? ==>
      r.fragments[i] == Reference(message[i].name.value)
    ensures forall i :: 0 <= i < |message| && message[i].text.None? && message[i].name.None? ==>
      r.fragments[i] == Text(UnrecognisedFragment(stringify(message[i])))
  {
    PrettyText(seq(|message|, i requires 0 <= i < |message| =>
      match message[i].text
      case Some(t) => Text(t)
      case None =>
        match message[i].name
        case Some(n) => Reference(n)
        case None => Text(UnrecognisedFragment(stringify(message[i])))))
  }

  /** A message reference names something only when the fragment named it and had no text. */
  lemma ReferencesComeFromNames(message: seq<JsMessageFragment>, stringify: JsMessageFragment -> string, i: int)
    requires 0 <= i < |message|
    ensures ToPrettyText(message, stringify).fragments[i].Reference? <==>
      message[i].text.None? && message[i].name.Some?
  {
  }

  /** `errorOrWarningNodeFor`: an error node iff the problem carries an error, with the same label and link. */
  function ErrorOrWarningNodeFor(problem: JsProblem, node: ProblemNode, docLink: Option<ProblemNode>): (r: ProblemNode)
    ensures r.Error? <==> problem.error.Some?
    ensures r.Error? || r.Warning?
    ensures r.labelNode == node && r.docLink == docLink
  {
    if problem.error.Some? then Error(node, docLink) else Warning(node, docLink)
  }

  /** `docLinkFor`: the documentation link, if any, as a link node labelled " ?". */
  function DocLinkFor(problem: JsProblem): (r: Option<ProblemNode>)
    ensures r.Some? <==> problem.documentationLink.Some?
    ensures r.Some? ==> r.value.Link? && r.value.href == problem.documentationLink.value && r.value.caption == " ?"
  {
    match problem.documentationLink
    case Some(href) => Some(Link(href, " ?"))
    case None => None
  }

  /** `exceptionNodeFor`: the error, if any, as an exception node. */
  function ExceptionNodeFor(problem: JsProblem): (r: Option<ProblemNode>)
    ensures r.Some? <==> problem.error.Some?
    ensures r.Some? ==> r.value == Exception(problem.error.value)
  {
    match problem.error
    case Some(e) => Some(Exception(e))
    case None => None
  }

  /** `messageNodeFor`: the problem's converted message as a message node. */
  function MessageNodeFor(imported: ImportedProblem): (r: ProblemNode)
    ensures r.Message? && r.prettyText == imported.message
  {
    Message(imported.message)
  }

  /** `exceptionOrMessageNodeFor`: the exception node if there is one, else the message node. */
  function ExceptionOrMessageNodeFor(imported: ImportedProblem): (r: ProblemNode)
    ensures r.Exception? <==> imported.problem.error.Some?
    ensures r.Exception? ==> r == Exception(imported.problem.error.value)
    ensures !r.Exception? ==> r == Message(imported.message)
  {
    match ExceptionNodeFor(imported.problem)
    case Some(n) => n
    case None => MessageNodeFor(imported)
  }

  /**
   * The by-message path of one problem: the message under an error or warning
   * with its doc link, then the trace as given, then the exception if any.
   */
  function MessagePath(imported: ImportedProblem): (r: seq<ProblemNode>)
    ensures |r| == 1 + |imported.trace| + (if imported.problem.error.Some? then 1 else 0)
    ensures r[0] == ErrorOrWarningNodeFor(imported.problem, Message(imported.message), DocLinkFor(imported.problem))
    ensures r[0].docLink == (if imported.problem.documentationLink.Some?
                             then Some(Link(imported.problem.documentationLink.value, " ?")) else None)
    ensures r[1..1 + |imported.trace|] == imported.trace
    ensures imported.problem.error.Some? ==> r[|r| - 1] == Exception(imported.problem.error.value)
  {
    [ErrorOrWarningNodeFor(imported.problem, MessageNodeFor(imported), DocLinkFor(imported.problem))]
      + imported.trace
      + (match ExceptionNodeFor(imported.problem) case Some(n) => [n] case None => [])
  }

  /**
   * The by-task path of one problem: the trace from its outermost element in,
   * the first node wrapped in an error or warning without a doc link, then the
   * exception if any, else the message.
   */
  function TaskPath(imported: ImportedProblem): (r: seq<ProblemNode>)
    ensures |r| == |imported.trace| + 1
    ensures |imported.trace| > 0 ==>
      r[0] == ErrorOrWarningNodeFor(imported.problem, imported.trace[|imported.trace| - 1], None)
    ensures forall i :: 1 <= i < |imported.trace| ==> r[i] == imported.trace[|imported.trace| - 1 - i]
    ensures r[|r| - 1] == (if imported.problem.error.Some? then Exception(imported.problem.error.value)
                           else Message(imported.message))
  {
    var reversed := Reverse(imported.trace);
    var wrapped := seq(|reversed|, i requires 0 <= i < |reversed| =>
      if i == 0 then ErrorOrWarningNodeFor(imported.problem, reversed[i], None) else reversed[i]);
    wrapped + [ExceptionOrMessageNodeFor(imported)]
  }

  /** The node an error or warning wraps; any other node is itself. */
  function Unwrapped(node: ProblemNode): ProblemNode
  {
    if node.Error? || node.Warning? then node.labelNode else node
  }

  /**
   * Both groupings show the same trace: unwrapping the head of the by-task path
   * and reading its trace part backwards gives the trace part of the by-message path.
   */
  lemma GroupingsShareTrace(imported: ImportedProblem)
    ensures var t := TaskPath(imported);
      var traceNodes := seq(|imported.trace|, i requires 0 <= i < |imported.trace| =>
        if i == 0 then Unwrapped(t[0]) else t[i]);
      Reverse(traceNodes) == MessagePath(imported)[1..1 + |imported.trace|]
  {
  }

  /** `reportPageModelFromJsModel`, up to the tries built from the paths. */
  datatype PageModel = PageModel(
    cacheAction: string,
    documentationLink: string,
    totalProblems: nat,
    messagePaths: seq<seq<ProblemNode>>,
    taskPaths: seq<seq<ProblemNode>>)

  /** Importing one problem of the JavaScript model. */
  function Import(problem: JsProblem, stringify: JsMessageFragment -> string): (r: ImportedProblem)
    ensures r.problem == problem
    ensures |r.trace| == |problem.trace|
    ensures forall i :: 0 <= i < |problem.trace| ==> r.trace[i] == ToProblemNode(problem.trace[i])
    ensures r.message == ToPrettyText(problem.message, stringify)
  {
    ImportedProblem(problem, ToPrettyText(problem.message, stringify),
      seq(|problem.trace|, i requires 0 <= i < |problem.trace| => ToProblemNode(problem.trace[i])))
  }

  /** The page model: one path per problem in each grouping, and the problem count. */
  function PageModelFrom(js: JsModel, stringify: JsMessageFragment -> string): (r: PageModel)
    ensures r.totalProblems == |js.problems|
    ensures |r.messagePaths| == |js.problems| && |r.taskPaths| == |js.problems|
    ensures forall i :: 0 <= i < |js.problems| ==>
      r.messagePaths[i] == MessagePath(Import(js.problems[i], stringify))
      && r.taskPaths[i] == TaskPath(Import(js.problems[i], stringify))
    ensures r.cacheAction == js.cacheAction && r.documentationLink == js.documentationLink
  {
    var imported := seq(|js.problems|, i requires 0 <= i < |js.problems| => Import(js.problems[i], stringify));
    PageModel(js.cacheAction, js.documentationLink, |js.problems|,
      seq(|imported|, i requires 0 <= i < |imported| => MessagePath(imported[i])),
      seq(|imported|, i requires 0 <= i < |imported| => TaskPath(imported[i])))
  }

  /** A problem with an error heads both of its paths with an error node, one without with a warning. */
  lemma PathsAgreeOnSeverity(js: JsModel, stringify: JsMessageFragment -> string, i: int)
    requires 0 <= i < |js.problems|
    ensures var m := PageModelFrom(js, stringify);
      && (m.messagePaths[i][0].Error? <==> js.problems[i].error.Some?)
      && (|js.problems[i].trace| > 0 ==> (m.taskPaths[i][0].Error? <==> js.problems[i].error.Some?))
      && (|js.problems[i].trace| == 0 ==> m.taskPaths[i] == [ExceptionOrMessageNodeFor(Import(js.problems[i], stringify))])
  {
  }
}
