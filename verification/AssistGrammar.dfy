/** Assist command paths: parsing, printing, and the next commands a session offers. */
module AssistGrammar {
  import opened Basics

  datatype Kind =
    | ListScenarios | DescribeScenario | StartScenario | ScenarioInspect | Instance | InstanceVerb
    | Doctor | Top | Vitality | CatalogFlows | CatalogWaiting | Discover | Menu | Open

  datatype Command = Command(kind: Kind, scenario: Option<string>, instance: Option<string>, verb: Option<string>)

  type Path = seq<string>

  const VERBS := {"input", "backtrack", "resume", "cancel", "handoff"}

  function Plain(kind: Kind): Option<Command> {
    Some(Command(kind, None, None, None))
  }

  function Normalize(path: Path): Path {
    if path != [] && path[0] == "assist" then path[1..] else path
  }

  /** None where the parser raises. */
  function Parse(path: Path): Option<Command> {
    ParseSegments(Normalize(path))
  }

  function ParseSegments(s: Path): Option<Command> {
    if |s| == 1 then Word(s[0])
    else if |s| == 2 then ParseTwo(s[0], s[1])
    else if |s| == 3 then ParseThree(s[0], s[1], s[2])
    else None
  }

  /** Commands of one word. */
  function Word(w: string): Option<Command> {
    if w == "scenarios" then Plain(ListScenarios)
    else if w == "doctor" then Plain(Doctor)
    else if w == "top" then Plain(Top)
    else if w == "vitality" then Plain(Vitality)
    else if w == "discover" then Plain(Discover)
    else if w == "menu" then Plain(Menu)
    else if w == "open" then Plain(Open)
    else None
  }

  function ParseTwo(a: string, b: string): Option<Command> {
    if a == "scenarios" && b != "start" then Some(Command(DescribeScenario, Some(b), None, None))
    else if a == "catalog" && b == "flows" then Plain(CatalogFlows)
    else if a == "catalog" && b == "waiting" then Plain(CatalogWaiting)
    else if a == "menu" || (a == "catalog" && b == "menu") then Plain(Menu)
    else if a == "catalog" && b == "open" then Plain(Open)
    else if a == "instance" || a == "session" then Some(Command(Instance, None, Some(b), None))
    else None
  }

  function ParseThree(a: string, b: string, c: string): Option<Command> {
    if a == "scenarios" && c == "start" then Some(Command(StartScenario, Some(b), None, None))
    else if a == "scenarios" && c == "inspect" then Some(Command(ScenarioInspect, Some(b), None, None))
    else if (a == "instance" || a == "session") && c in VERBS then Some(Command(InstanceVerb, None, Some(b), Some(c)))
    else None
  }

  /** The keyword arguments of the printer; session is the older name of instance. */
  datatype Args = Args(scenario: Option<string>, instance: Option<string>, session: Option<string>, verb: Option<string>)

  function Listed(prefix: Path, x: Option<string>): Path {
    if x.Some? then prefix + [x.value] else []
  }

  function Continued(a: Args): Option<string> {
    if a.instance.Some? then a.instance else a.session
  }

  function CommandPath(a: Args): Path {
    ["assist"] + Listed(["scenarios"], a.scenario) + Listed(["instance"], Continued(a)) + Listed([], a.verb)
  }

  // ---------------------------------------------------------------------------
  // Parsing and printing
  // ---------------------------------------------------------------------------

  /** What a printed path means: the command its arguments name, if they name one. */
  function Meaning(a: Args): Option<Command> {
    match (a.scenario, Continued(a), a.verb)
    case (Some(s), None, None) => if s == "start" then None else Some(Command(DescribeScenario, Some(s), None, None))
    case (Some(s), None, Some(v)) =>
      if v == "start" then Some(Command(StartScenario, Some(s), None, None))
      else if v == "inspect" then Some(Command(ScenarioInspect, Some(s), None, None))
      else None
    case (None, Some(i), None) => Some(Command(Instance, None, Some(i), None))
    case (None, Some(i), Some(v)) => if v in VERBS then Some(Command(InstanceVerb, None, Some(i), Some(v))) else None
    case (Some(_), Some(_), _) => None
    case (None, None, v) => if v.Some? then Word(v.value) else None
  }

  /** Parsing a printed path gives the meaning of its arguments, and fails exactly when they have none. */
  lemma ParsePrinted(a: Args)
    ensures Parse(CommandPath(a)) == Meaning(a)
  {
    Segments(a);
  }

  /** The printed segments after the service prefix. */
  function Body(a: Args): Path {
    match (a.scenario, Continued(a), a.verb)
    case (Some(s), None, None) => ["scenarios", s]
    case (Some(s), None, Some(v)) => ["scenarios", s, v]
    case (None, Some(i), None) => ["instance", i]
    case (None, Some(i), Some(v)) => ["instance", i, v]
    case (Some(s), Some(i), None) => ["scenarios", s, "instance", i]
    case (Some(s), Some(i), Some(v)) => ["scenarios", s, "instance", i, v]
    case (None, None, None) => []
    case (None, None, Some(v)) => [v]
  }

  lemma Segments(a: Args)
    ensures Normalize(CommandPath(a)) == Body(a)
  {
    assert CommandPath(a) == ["assist"] + Body(a);
  }

  /** A scenario can be described by its printed path unless it is called start. */
  lemma DescribeIff(scenario: string)
    ensures Parse(CommandPath(Args(Some(scenario), None, None, None))) ==
            (if scenario == "start" then None else Some(Command(DescribeScenario, Some(scenario), None, None)))
  {
    ParsePrinted(Args(Some(scenario), None, None, None));
  }

  /** The arguments that print a command on a scenario or an instance. */
  function ArgsOf(c: Command): Args {
    match c.kind
    case StartScenario => Args(c.scenario, None, None, Some("start"))
    case ScenarioInspect => Args(c.scenario, None, None, Some("inspect"))
    case _ => Args(c.scenario, c.instance, None, c.verb)
  }

  predicate Addressed(c: Command) {
    c.scenario.Some? || c.instance.Some?
  }

  /** Whatever path an addressed command was parsed from, printing and parsing it again gives the same command;
      the print is the path itself unless that used the older segment. */
  lemma ReprintParsed(path: Path)
    requires Parse(path).Some? && Addressed(Parse(path).value)
    ensures var c := Parse(path).value;
            var s := Normalize(path);
            && Parse(CommandPath(ArgsOf(c))) == Some(c)
            && s != [] && Normalize(CommandPath(ArgsOf(c))) == (if s[0] == "session" then ["instance"] + s[1..] else s)
  {
    ReprintSegments(Normalize(path));
    ParsePrinted(ArgsOf(Parse(path).value));
    Segments(ArgsOf(Parse(path).value));
  }

  lemma ReprintSegments(s: Path)
    requires ParseSegments(s).Some? && Addressed(ParseSegments(s).value)
    ensures s != [] && Meaning(ArgsOf(ParseSegments(s).value)) == ParseSegments(s)
    ensures Body(ArgsOf(ParseSegments(s).value)) == if s[0] == "session" then ["instance"] + s[1..] else s
  {
    if |s| == 2 {
      assert s == [s[0], s[1]];
    } else {
      assert s == [s[0], s[1], s[2]];
    }
  }

  /** Two paths that parse to the same addressed command differ at most in the service prefix and the older segment. */
  lemma ParseSeparates(p: Path, q: Path)
    requires Parse(p).Some? && Parse(p) == Parse(q) && Addressed(Parse(p).value)
    ensures var s, t := Normalize(p), Normalize(q);
            && s != [] && t != [] && s[1..] == t[1..]
            && (s[0] == t[0] || {s[0], t[0]} == {"instance", "session"})
  {
    ReprintParsed(p);
    ReprintParsed(q);
    var s, t := Normalize(p), Normalize(q);
    var printed := Normalize(CommandPath(ArgsOf(Parse(p).value)));
    assert printed[1..] == s[1..] && printed[1..] == t[1..];
  }

  /** The words after the service prefix, which may be left out. */
  lemma PrefixIsOptional(path: Path)
    ensures Parse(["assist"] + path) == ParseSegments(path)
    ensures path == [] || path[0] != "assist" ==> Parse(path) == ParseSegments(path)
  {
    assert (["assist"] + path)[1..] == path;
  }

  /** The paths of each command that names nothing, the older spellings included; whatever follows `menu` is ignored. */
  lemma PlainPaths(s: Path)
    ensures ParseSegments(s) == Some(Command(ListScenarios, None, None, None)) <==> s == ["scenarios"]
    ensures ParseSegments(s) == Some(Command(Doctor, None, None, None)) <==> s == ["doctor"]
    ensures ParseSegments(s) == Some(Command(Top, None, None, None)) <==> s == ["top"]
    ensures ParseSegments(s) == Some(Command(Vitality, None, None, None)) <==> s == ["vitality"]
    ensures ParseSegments(s) == Some(Command(Discover, None, None, None)) <==> s == ["discover"]
    ensures ParseSegments(s) == Some(Command(CatalogFlows, None, None, None)) <==> s == ["catalog", "flows"]
    ensures ParseSegments(s) == Some(Command(CatalogWaiting, None, None, None)) <==> s == ["catalog", "waiting"]
    ensures ParseSegments(s) == Some(Command(Menu, None, None, None)) <==>
              (s == ["menu"] || (|s| == 2 && s[0] == "menu") || s == ["catalog", "menu"])
    ensures ParseSegments(s) == Some(Command(Open, None, None, None)) <==> s == ["open"] || s == ["catalog", "open"]
  {
    PathOfTwo(s);
  }

  lemma PathOfTwo(s: Path)
    ensures |s| == 1 ==> s == [s[0]]
    ensures |s| == 2 ==> s == [s[0], s[1]]
    ensures |s| == 3 ==> s == [s[0], s[1], s[2]]
  {}

  /** The paths of each command on a scenario or an instance. */
  lemma AddressedPaths(s: Path, x: string, verb: string)
    ensures ParseSegments(s) == Some(Command(DescribeScenario, Some(x), None, None)) <==> s == ["scenarios", x] && x != "start"
    ensures ParseSegments(s) == Some(Command(StartScenario, Some(x), None, None)) <==> s == ["scenarios", x, "start"]
    ensures ParseSegments(s) == Some(Command(ScenarioInspect, Some(x), None, None)) <==> s == ["scenarios", x, "inspect"]
    ensures ParseSegments(s) == Some(Command(Instance, None, Some(x), None)) <==> s == ["instance", x] || s == ["session", x]
    ensures ParseSegments(s) == Some(Command(InstanceVerb, None, Some(x), Some(verb))) <==>
              (verb in {"input", "backtrack", "resume", "cancel", "handoff"}
               && (s == ["instance", x, verb] || s == ["session", x, verb]))
  {
    PathOfTwo(s);
  }

  // ---------------------------------------------------------------------------
  // Next commands
  // ---------------------------------------------------------------------------

  datatype Context = Context(session: string, status: string, waiting: bool, handoffReady: bool)

  const WAITING := "WAITING_FOR_INPUT"
  const SUCCEEDED := "SUCCEEDED"

  function Offer(session: string, verb: Option<string>): Path {
    CommandPath(Args(None, None, Some(session), verb))
  }

  /** Is a verb, or the plain look when there is none, among the next commands. */
  predicate Offered(c: Context, verb: Option<string>) {
    || verb == None
    || verb == Some("cancel")
    || (c.waiting && (verb == Some("input") || verb == Some("backtrack")))
    || (c.status == WAITING && verb == Some("resume"))
    || ((c.handoffReady || c.status == SUCCEEDED) && verb == Some("handoff"))
  }

  function Offers(session: string, verbs: seq<Option<string>>): seq<Path> {
    seq(|verbs|, k requires 0 <= k < |verbs| => Offer(session, verbs[k]))
  }

  /** What a next command of an instance must parse to. */
  function Meant(session: string, verb: Option<string>): Command {
    Command(if verb.None? then Instance else InstanceVerb, None, Some(session), verb)
  }

  /** The next commands: the look first, one path for each offered verb and no path twice, and every one parses back
      to the session's own instance and its verb. */
  method NextCommands(c: Context) returns (commands: seq<Path>)
    ensures forall p :: p in commands <==> exists v :: Offered(c, v) && p == Offer(c.session, v)
    ensures forall j, k | 0 <= j < k < |commands| :: commands[j] != commands[k]
    ensures forall p | p in commands :: exists v :: Offered(c, v) && Parse(p) == Some(Meant(c.session, v))
    ensures |commands| > 0 && commands[0] == Offer(c.session, None)
  {
    commands := [Offer(c.session, None)];
    if c.waiting {
      commands := commands + [Offer(c.session, Some("input"))];
      commands := commands + [Offer(c.session, Some("backtrack"))];
    }
    if c.status == WAITING {
      commands := commands + [Offer(c.session, Some("resume"))];
    }
    if c.handoffReady || c.status == SUCCEEDED {
      commands := commands + [Offer(c.session, Some("handoff"))];
    }
    commands := commands + [Offer(c.session, Some("cancel"))];
    assert commands == Offers(c.session, Verbs(c));
    VerbsOffered(c);
    VerbsDistinct(c);
    OffersParse(c, commands, Verbs(c));
  }

  lemma OfferIn(c: Context, commands: seq<Path>, verb: Option<string>)
    requires forall p :: p in commands <==> exists v :: Offered(c, v) && p == Offer(c.session, v)
    ensures Offer(c.session, verb) in commands <==> Offered(c, verb)
  {
    OffersAre(c.session);
  }

  /** The offers by name. */
  lemma OfferedByName(c: Context, commands: seq<Path>, verb: string)
    requires forall p :: p in commands <==> exists v :: Offered(c, v) && p == Offer(c.session, v)
    ensures ["assist", "instance", c.session] in commands
    ensures ["assist", "instance", c.session, verb] in commands <==>
              (match verb
               case "cancel" => true
               case "input" => c.waiting
               case "backtrack" => c.waiting
               case "resume" => c.status == "WAITING_FOR_INPUT"
               case "handoff" => c.handoffReady || c.status == "SUCCEEDED"
               case _ => false)
  {
    OffersAre(c.session);
    OfferIn(c, commands, None);
    OfferIn(c, commands, Some(verb));
  }

  lemma OffersAre(session: string)
    ensures Offer(session, None) == ["assist", "instance", session]
    ensures forall v :: Offer(session, Some(v)) == ["assist", "instance", session, v]
    ensures forall u, v :: Offer(session, u) == Offer(session, v) ==> u == v
  {
    forall u, v | Offer(session, u) == Offer(session, v) ensures u == v {
      assert u.Some? ==> Offer(session, u)[3] == u.value;
      assert v.Some? ==> Offer(session, v)[3] == v.value;
    }
  }

  ghost function Verbs(c: Context): seq<Option<string>> {
    [None]
    + (if c.waiting then [Some("input"), Some("backtrack")] else [])
    + (if c.status == WAITING then [Some("resume")] else [])
    + (if c.handoffReady || c.status == SUCCEEDED then [Some("handoff")] else [])
    + [Some("cancel")]
  }

  lemma VerbsOffered(c: Context)
    ensures forall v :: v in Verbs(c) <==> Offered(c, v)
  {
    var a := if c.waiting then [Some("input"), Some("backtrack")] else [];
    var b := if c.status == WAITING then [Some("resume")] else [];
    var d := if c.handoffReady || c.status == SUCCEEDED then [Some("handoff")] else [];
    assert Verbs(c) == [None] + a + b + d + [Some("cancel")];
    forall v ensures v in Verbs(c) <==> v == None || v in a || v in b || v in d || v == Some("cancel") {}
    forall v ensures v in a <==> c.waiting && (v == Some("input") || v == Some("backtrack")) {}
  }

  lemma VerbsDistinct(c: Context)
    ensures forall j, k | 0 <= j < k < |Verbs(c)| :: Verbs(c)[j] != Verbs(c)[k]
  {}

  lemma OffersParse(c: Context, commands: seq<Path>, verbs: seq<Option<string>>)
    requires commands == Offers(c.session, verbs) && forall v :: v in verbs <==> Offered(c, v)
    requires forall j, k | 0 <= j < k < |verbs| :: verbs[j] != verbs[k]
    ensures forall p :: p in commands <==> exists v :: Offered(c, v) && p == Offer(c.session, v)
    ensures forall p | p in commands :: exists v :: Offered(c, v) && Parse(p) == Some(Meant(c.session, v))
    ensures forall j, k | 0 <= j < k < |commands| :: commands[j] != commands[k]
  {
    forall k | 0 <= k < |commands| ensures Parse(commands[k]) == Some(Meant(c.session, verbs[k])) {
      assert verbs[k] in verbs;
      ParsePrinted(Args(None, None, Some(c.session), verbs[k]));
    }
    forall p | p in commands ensures exists v :: Offered(c, v) && p == Offer(c.session, v) {
      var k :| 0 <= k < |commands| && commands[k] == p;
      assert Offered(c, verbs[k]);
    }
    forall p | p in commands ensures exists v :: Offered(c, v) && Parse(p) == Some(Meant(c.session, v)) {
      var k :| 0 <= k < |commands| && commands[k] == p;
      assert Offered(c, verbs[k]);
    }
    forall v | Offered(c, v) ensures Offer(c.session, v) in commands {
      var k :| 0 <= k < |verbs| && verbs[k] == v;
      assert commands[k] in commands;
    }
  }
}
