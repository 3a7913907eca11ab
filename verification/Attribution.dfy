/** Which session a start body ends up with, and what enriching it may create. */
module Attribution {
  import opened Basics
  import opened Texts
  import opened SessionIds
  import opened Sessions

  /** The parts of a start body's metadata that carry sessions. */
  datatype Meta = Meta(session: Option<string>, parent: Option<string>, origin: Option<string>, attribution: Option<string>)

  datatype Body = Body(session: Option<string>, meta: Meta)

  /** A plane is there or the runtime is not ready. */
  datatype Enriched = Enriched(plane: Option<Plane>, answer: Answer<Body>)

  function FirstSystem(raws: seq<Option<string>>): Option<Name> {
    if raws == [] then None
    else if LooksSystem(raws[0]) then Some(Trimmed(raws[0].value))
    else FirstSystem(raws[1..])
  }

  /** The places of a start body in which a session may come, in their order. */
  function Places(body: Body): seq<Option<string>> {
    [body.session, body.meta.session, body.meta.parent]
  }

  function Inherited(body: Body): Option<Name> {
    FirstSystem(Places(body))
  }

  function OriginOf(origin: string, surface: string): string {
    if Strip(origin) != "" then Strip(origin) else if surface != "" then surface else "work-drain"
  }

  /** `ensure_service_session`: every failure becomes None. */
  function ServiceSession(p: Option<Plane>, origin: string): (Option<Plane>, Option<Name>) {
    if p.None? then (None, None)
    else
      var step := EnsureService(p.value, origin);
      (Some(step.plane), if step.answer.Ok? then Some(step.answer.value.id) else None)
  }

  function Carrying(body: Body, id: Name): Body {
    body.(meta := body.meta.(session := Some(id.text)))
  }

  /** `enrich_reactive_start`. */
  function Reactive(p: Option<Plane>, strict: bool, body: Body, origin: string, surface: string): Enriched {
    var from := OriginOf(origin, surface);
    match Inherited(body)
    case Some(id) =>
      var kept := Some(body.meta.origin.GetOr(from));
      Enriched(p, Ok(body.(meta := Meta(Some(id.text), body.meta.parent, kept, Some("inherit")))))
    case None =>
      var (q, id) := ServiceSession(p, from);
      if id.Some? then
        Enriched(q, Ok(body.(meta := Meta(Some(id.value.text), body.meta.parent, Some(from), Some("service")))))
      else if strict && p.Some? then Enriched(q, Raised(Unattributed))
      else Enriched(q, Ok(body))
  }

  const AUTOMATED := {"work-drain", "schedule", "inbound", "trigger"}

  function Hint(body: Body, surface: string, origin: Option<string>): Option<Name> {
    var raw := if origin.Some? && origin.value != "" then origin else body.meta.origin;
    if Given(raw).Some? then Given(raw) else if surface in AUTOMATED then Some(Name(surface)) else None
  }

  /** `enrich_submit_body`. */
  function Submit(p: Option<Plane>, strict: bool, body: Body, surface: string, origin: Option<string>, token: Token): Enriched {
    var hint := Hint(body, surface, origin);
    if hint.Some? then Reactive(p, strict, body, hint.value.text, surface)
    else
      var given := FirstSystem([body.session, body.meta.session]);
      if given.Some? then Enriched(p, Ok(Carrying(body, given.value)))
      else if p.None? then Enriched(None, Ok(body))
      else
        var step := Bind(p.value, None, true, token);
        if step.answer.Ok? then Enriched(Some(step.plane), Ok(Carrying(body, step.answer.value.id)))
        else Enriched(Some(step.plane), if strict then Raised(Unattributed) else Ok(body))
  }

  // ---------------------------------------------------------------------------
  // What the plane does for a start
  // ---------------------------------------------------------------------------

  ghost predicate Ready(p: Option<Plane>) {
    p.Some? ==> Sound(p.value)
  }

  /** q is p with at most the given session opened. */
  ghost predicate OpensOnly(p: Plane, q: Plane, id: Option<Name>) {
    && Sound(q) && q.owners == p.owners
    && (forall s | s in p.entries :: s in q.entries && q.entries[s] == p.entries[s])
    && (forall s | s in q.entries && s !in p.entries :: Some(s) == id)
  }

  lemma OpenOpensOnly(p: Plane, id: Name)
    requires Sound(p) && Tidy(id)
    ensures OpensOnly(p, OpenId(p, id).plane, Some(id))
    ensures OpenId(p, id).answer.Ok? <==> id !in p.entries || p.entries[id].status != Closed
    ensures OpenId(p, id).answer.Ok? ==>
              OpenId(p, id).answer.value.id == id && RequireOpen(OpenId(p, id).plane, id).Ok?
    ensures id in p.entries ==> OpenId(p, id).plane == p
  {
    OpenKeepsSound(p, id);
    assert Owners(p.owners, id, {}, {}) == p.owners;
  }

  /** Asking for a service session gives the one of the origin, or changes nothing if it has no name or is closed. */
  ghost predicate Served(p: Plane, origin: string, q: Plane, id: Option<Name>) {
    && OpensOnly(p, q, ServiceId(origin))
    && match id
       case Some(n) => ServiceId(origin) == id && System(n) && Tidy(n) && SERVICE <= n.text && RequireOpen(q, n).Ok?
       case None => q == p && (ServiceId(origin).None? || RequireOpen(p, ServiceId(origin).value) == Raised(SessionClosed))
  }

  lemma ServiceServes(p: Plane, origin: string)
    requires Sound(p)
    ensures var (q, id) := ServiceSession(Some(p), origin);
            q.Some? && Served(p, origin, q.value, id)
  {
    ServiceIdShape(origin);
    if ServiceId(origin).Some? {
      OpenOpensOnly(p, ServiceId(origin).value);
    }
  }

  lemma OutsideServes(p: Plane, token: Token)
    requires Sound(p)
    ensures var step := Bind(p, None, true, token);
            && OpensOnly(p, step.plane, Some(OutsideId(token)))
            && (if step.answer.Ok? then step.answer.value.id == OutsideId(token) && RequireOpen(step.plane, OutsideId(token)).Ok?
                else step.plane == p)
  {
    OutsideIsNotService(token);
    OpenOpensOnly(p, OutsideId(token));
  }

  // ---------------------------------------------------------------------------
  // Candidates
  // ---------------------------------------------------------------------------

  lemma FirstAfter(raw: Option<string>, rest: seq<Option<string>>)
    ensures FirstSystem([raw] + rest) == if LooksSystem(raw) then Some(Trimmed(raw.value)) else FirstSystem(rest)
  {
    assert ([raw] + rest)[1..] == rest;
  }

  lemma LooksTidy(raw: Option<string>)
    requires LooksSystem(raw)
    ensures System(Trimmed(raw.value)) && Tidy(Trimmed(raw.value))
  {
    StripTwice(raw.value);
  }

  lemma LooksAgain(id: Name)
    requires System(id) && Tidy(id)
    ensures LooksSystem(Some(id.text)) && Trimmed(id.text) == id
  {}

  /** The candidates in order: body, metadata, parent. */
  lemma Candidates(body: Body)
    ensures FirstSystem([body.session, body.meta.session]) ==
            if LooksSystem(body.session) then Some(Trimmed(body.session.value))
            else if LooksSystem(body.meta.session) then Some(Trimmed(body.meta.session.value))
            else None
    ensures Inherited(body) ==
            if LooksSystem(body.session) then Some(Trimmed(body.session.value))
            else if LooksSystem(body.meta.session) then Some(Trimmed(body.meta.session.value))
            else if LooksSystem(body.meta.parent) then Some(Trimmed(body.meta.parent.value))
            else None
  {
    FirstAfter(body.session, [body.meta.session]);
    FirstAfter(body.session, [body.meta.session, body.meta.parent]);
    FirstAfter(body.meta.session, []);
    FirstAfter(body.meta.session, [body.meta.parent]);
    FirstAfter(body.meta.parent, []);
  }

  lemma CandidatesAreTidy(body: Body)
    ensures Inherited(body).Some? ==> System(Inherited(body).value) && Tidy(Inherited(body).value)
    ensures var given := FirstSystem([body.session, body.meta.session]);
            given.Some? ==> System(given.value) && Tidy(given.value) && Inherited(body) == given
  {
    Candidates(body);
    if LooksSystem(body.session) {
      LooksTidy(body.session);
    }
    if LooksSystem(body.meta.session) {
      LooksTidy(body.meta.session);
    }
    if LooksSystem(body.meta.parent) {
      LooksTidy(body.meta.parent);
    }
  }

  // ---------------------------------------------------------------------------
  // Reactive starts
  // ---------------------------------------------------------------------------

  lemma {:induction false} FirstSystemAt(raws: seq<Option<string>>, k: nat)
    requires k < |raws| && LooksSystem(raws[k]) && forall j | 0 <= j < k :: !LooksSystem(raws[j])
    ensures FirstSystem(raws) == Some(Trimmed(raws[k].value))
  {
    if k > 0 {
      FirstSystemAt(raws[1..], k - 1);
    }
  }

  lemma {:induction false} NoSystem(raws: seq<Option<string>>)
    ensures FirstSystem(raws).None? <==> forall j | 0 <= j < |raws| :: !LooksSystem(raws[j])
  {
    if raws != [] {
      NoSystem(raws[1..]);
      assert forall j | 1 <= j < |raws| :: raws[j] == raws[1..][j - 1];
    }
  }

  /** A start that carries a system session anywhere keeps the one in the first such place, trimmed, and creates
      nothing. */
  lemma SignalIsKept(p: Option<Plane>, strict: bool, body: Body, origin: string, surface: string, k: nat)
    requires k < |Places(body)| && LooksSystem(Places(body)[k]) && forall j | 0 <= j < k :: !LooksSystem(Places(body)[j])
    ensures var e := Reactive(p, strict, body, origin, surface);
            && e.plane == p && e.answer.Ok? && e.answer.value.session == body.session
            && e.answer.value.meta.session == Some(Strip(Places(body)[k].value))
            && e.answer.value.meta.attribution == Some("inherit") && e.answer.value.meta.parent == body.meta.parent
            && e.answer.value.meta.origin ==
               (if body.meta.origin.Some? then body.meta.origin
                else if Strip(origin) != "" then Some(Strip(origin))
                else if surface != "" then Some(surface)
                else Some("work-drain"))
  {
    FirstSystemAt(Places(body), k);
  }

  /** Without one the start gets the service session of its origin or no session; no other session appears or changes. */
  lemma NoOutsideSession(p: Plane, strict: bool, body: Body, origin: string, surface: string)
    requires Sound(p) && forall j | 0 <= j < |Places(body)| :: !LooksSystem(Places(body)[j])
    ensures var e := Reactive(Some(p), strict, body, origin, surface);
            var id := ServiceId(OriginOf(origin, surface));
            && e.plane.Some? && OpensOnly(p, e.plane.value, id) && (id.Some? ==> SERVICE <= id.value.text)
            && (e.answer.Ok? && e.answer.value != body ==>
                  && id.Some? && RequireOpen(e.plane.value, id.value).Ok?
                  && e.answer.value == Body(body.session, Meta(Some(id.value.text), body.meta.parent,
                       Some(if Strip(origin) != "" then Strip(origin) else if surface != "" then surface else "work-drain"),
                       Some("service"))))
  {
    NoSystem(Places(body));
    ServiceServes(p, OriginOf(origin, surface));
    ServiceIdShape(OriginOf(origin, surface));
  }

  /** In strict mode with a plane the result carries a system session, or the call raises: it raises exactly when
      nothing is inherited and the service session has no usable name or is closed. */
  lemma StrictReactive(p: Plane, body: Body, origin: string, surface: string)
    requires Sound(p)
    ensures var e := Reactive(Some(p), true, body, origin, surface);
            var id := ServiceId(OriginOf(origin, surface));
            && (e.answer.Ok? ==> LooksSystem(e.answer.value.meta.session))
            && (e.answer.Raised? <==>
                  Inherited(body).None? && (id.None? || RequireOpen(p, id.value) == Raised(SessionClosed)))
            && (e.answer.Raised? ==> e.plane == Some(p))
  {
    CandidatesAreTidy(body);
    ServiceServes(p, OriginOf(origin, surface));
    if Inherited(body).Some? {
      LooksAgain(Inherited(body).value);
    } else if ServiceId(OriginOf(origin, surface)).Some? && Reactive(Some(p), true, body, origin, surface).answer.Ok? {
      LooksAgain(ServiceId(OriginOf(origin, surface)).value);
    }
  }

  /** What every enrichment guarantees: the session it adds accepts work if it was created for the start, every later
      look at the body finds the carried session first, and a call without a session did nothing. */
  ghost predicate Attributed(p: Option<Plane>, strict: bool, body: Body, e: Enriched) {
    && Ready(e.plane) && (e.plane.Some? <==> p.Some?) && (p.Some? ==> e.plane.value.owners == p.value.owners)
    && (e.answer.Raised? ==> strict && p.Some? && e.plane == p)
    && (e.answer.Ok? ==>
          var b := e.answer.value;
          if LooksSystem(b.meta.session) then
            var id := Trimmed(b.meta.session.value);
            && Carries(b, id)
            && (e.plane != p ==> e.plane.Some? && RequireOpen(e.plane.value, id).Ok?)
          else e == Enriched(p, Ok(body)) && (strict ==> p.None?))
  }

  /** The body carries id as its system session, and no other candidate comes before it. */
  ghost predicate Carries(b: Body, id: Name) {
    && System(id) && Tidy(id) && b.meta.session == Some(id.text)
    && Inherited(b) == Some(id) && FirstSystem([b.session, b.meta.session]) == Some(id)
  }

  /** Writing the first candidate, or any id if there is no candidate in the body itself, makes the body carry it. */
  lemma WritingCarries(body: Body, b: Body, id: Name)
    requires System(id) && Tidy(id) && b.session == body.session && b.meta.session == Some(id.text)
    requires LooksSystem(body.session) ==> id == Trimmed(body.session.value)
    ensures Carries(b, id) && LooksSystem(b.meta.session) && Trimmed(b.meta.session.value) == id
  {
    LooksAgain(id);
    Candidates(b);
  }

  lemma ReactiveAttributes(p: Option<Plane>, strict: bool, body: Body, origin: string, surface: string)
    requires Ready(p)
    ensures Attributed(p, strict, body, Reactive(p, strict, body, origin, surface))
  {
    var e := Reactive(p, strict, body, origin, surface);
    Candidates(body);
    CandidatesAreTidy(body);
    if Inherited(body).Some? {
      WritingCarries(body, e.answer.value, Inherited(body).value);
    } else if p.Some? {
      ServiceServes(p.value, OriginOf(origin, surface));
      var id := ServiceSession(p, OriginOf(origin, surface)).1;
      if id.Some? {
        WritingCarries(body, e.answer.value, id.value);
      }
    }
  }

  /** Enriching a reactive start again, whatever the origin then, changes nothing but the label. */
  lemma ReactiveTwice(p: Option<Plane>, strict: bool, body: Body, origin: string, surface: string,
                      strict': bool, origin': string, surface': string)
    requires Ready(p)
    requires var e := Reactive(p, strict, body, origin, surface);
             e.answer.Ok? && LooksSystem(e.answer.value.meta.session)
    ensures var e := Reactive(p, strict, body, origin, surface);
            Reactive(e.plane, strict', e.answer.value, origin', surface') ==
            Enriched(e.plane, Ok(e.answer.value.(meta := e.answer.value.meta.(attribution := Some("inherit")))))
  {
    ReactiveAttributes(p, strict, body, origin, surface);
    var e := Reactive(p, strict, body, origin, surface);
    assert e.answer.value.meta.origin.Some?;
  }

  // ---------------------------------------------------------------------------
  // Submitted bodies
  // ---------------------------------------------------------------------------

  lemma SubmitAttributes(p: Option<Plane>, strict: bool, body: Body, surface: string, origin: Option<string>, token: Token)
    requires Ready(p)
    ensures Attributed(p, strict, body, Submit(p, strict, body, surface, origin, token))
  {
    var hint := Hint(body, surface, origin);
    if hint.Some? {
      ReactiveAttributes(p, strict, body, hint.value.text, surface);
    } else {
      OutsideAttributes(p, strict, body, surface, origin, token);
    }
  }

  lemma OutsideAttributes(p: Option<Plane>, strict: bool, body: Body, surface: string, origin: Option<string>, token: Token)
    requires Ready(p) && Hint(body, surface, origin).None?
    ensures Attributed(p, strict, body, Submit(p, strict, body, surface, origin, token))
  {
    var e := Submit(p, strict, body, surface, origin, token);
    var given := FirstSystem([body.session, body.meta.session]);
    Candidates(body);
    CandidatesAreTidy(body);
    if given.Some? {
      WritingCarries(body, e.answer.value, given.value);
    } else if p.Some? {
      OutsideServes(p.value, token);
      OutsideIsNotService(token);
      if Bind(p.value, None, true, token).answer.Ok? {
        WritingCarries(body, e.answer.value, OutsideId(token));
      }
    }
  }

  lemma ServiceBody(p: Option<Plane>, strict: bool, body: Body, origin: string)
    requires Inherited(body).None? && Strip(origin) == origin && origin != ""
    ensures var e := Reactive(p, strict, body, origin, origin);
            e.answer.Ok? && e.answer.value != body && (p.Some? ==> Sound(p.value)) ==>
              && ServiceId(origin).Some?
              && e.answer.value == Body(body.session, Meta(Some(ServiceId(origin).value.text), body.meta.parent,
                                                           Some(origin), Some("service")))
  {
    if p.Some? && Sound(p.value) {
      ServiceServes(p.value, origin);
    }
  }

  /** A submitted body without a session and without an origin, on one of the four automated surfaces: it gets the
      service session of the surface, or nothing. */
  lemma AutomatedSurface(p: Plane, strict: bool, body: Body, surface: string, token: Token)
    requires Sound(p) && Given(body.meta.origin).None? && surface in {"work-drain", "schedule", "inbound", "trigger"}
    requires Inherited(body).None?
    ensures var e := Submit(Some(p), strict, body, surface, None, token);
            e.answer.Ok? && e.answer.value != body ==>
              && ServiceId(surface).Some?
              && e.answer.value == Body(body.session, Meta(Some(ServiceId(surface).value.text), body.meta.parent,
                                                           Some(surface), Some("service")))
  {
    Automated(surface);
    var hint := Hint(body, surface, None);
    assert hint == Some(Name(surface));
    assert Submit(Some(p), strict, body, surface, None, token) == Reactive(Some(p), strict, body, surface, surface);
    ServiceBody(Some(p), strict, body, surface);
  }

  lemma BindMints(p: Plane, token: Token)
    requires Sound(p)
    ensures var answer := Bind(p, None, true, token).answer;
            && (answer.Ok? ==> answer.value.id == Name("sess-" + token))
            && (Name("sess-" + token) !in p.entries ==> answer.Ok?)
  {}

  /** And on any other surface: it gets the outside session of the random part, and no label. */
  lemma OtherSurface(p: Plane, strict: bool, body: Body, surface: string, token: Token)
    requires Sound(p) && Given(body.meta.origin).None? && surface !in {"work-drain", "schedule", "inbound", "trigger"}
    requires FirstSystem([body.session, body.meta.session]).None?
    ensures var e := Submit(Some(p), strict, body, surface, None, token);
            && (e.answer.Ok? && e.answer.value != body ==>
                  e.answer.value == body.(meta := body.meta.(session := Some("sess-" + token))))
            && (Name("sess-" + token) !in p.entries ==>
                  e.answer.Ok? && e.answer.value.meta.session == Some("sess-" + token))
  {
    assert Hint(body, surface, None).None?;
    BindMints(p, token);
  }

  lemma Automated(surface: string)
    ensures surface in {"work-drain", "schedule", "inbound", "trigger"} ==> Strip(surface) == surface && surface != ""
  {}

  /** Where the origin of a submitted body comes from: the argument, the metadata, the surface if it is automated. */
  lemma HintIs(body: Body, surface: string, origin: Option<string>)
    ensures Hint(body, surface, origin) ==
            if origin.Some? && origin.value != "" then
              (if Strip(origin.value) != "" then Some(Name(Strip(origin.value)))
               else if surface in {"work-drain", "schedule", "inbound", "trigger"} then Some(Name(surface)) else None)
            else if body.meta.origin.Some? && Strip(body.meta.origin.value) != "" then Some(Name(Strip(body.meta.origin.value)))
            else if surface in {"work-drain", "schedule", "inbound", "trigger"} then Some(Name(surface)) else None
  {}

  /** A body that came with a system session keeps it and creates none. */
  lemma SubmitKeepsGiven(p: Option<Plane>, strict: bool, body: Body, surface: string, origin: Option<string>, token: Token)
    requires FirstSystem([body.session, body.meta.session]).Some?
    ensures var e := Submit(p, strict, body, surface, origin, token);
            && e.plane == p && e.answer.Ok? && e.answer.value.session == body.session
            && e.answer.value.meta.session == Some(FirstSystem([body.session, body.meta.session]).value.text)
  {
    Candidates(body);
  }

  /** A second enrichment, with any surface, origin and token, keeps the session and creates none. */
  lemma SubmitTwice(p: Option<Plane>, strict: bool, body: Body, surface: string, origin: Option<string>, token: Token,
                    strict': bool, surface': string, origin': Option<string>, token': Token)
    requires Ready(p)
    requires var e := Submit(p, strict, body, surface, origin, token);
             e.answer.Ok? && LooksSystem(e.answer.value.meta.session)
    ensures var e := Submit(p, strict, body, surface, origin, token);
            var again := Submit(e.plane, strict', e.answer.value, surface', origin', token');
            && again.plane == e.plane && again.answer.Ok?
            && again.answer.value.meta.session == e.answer.value.meta.session
            && again.answer.value.session == e.answer.value.session
  {
    SubmitAttributes(p, strict, body, surface, origin, token);
    var e := Submit(p, strict, body, surface, origin, token);
    SubmitKeepsGiven(e.plane, strict', e.answer.value, surface', origin', token');
  }

  /** Work started under a session that the enrichment created can be continued under it once it is attached. */
  lemma StartedWorkContinues(p: Plane, body: Body, surface: string, origin: Option<string>, token: Token, instance: string)
    requires Sound(p) && Given(Some(instance)).Some? && HandleOf(instance) !in p.owners
    requires var e := Submit(Some(p), true, body, surface, origin, token); e.answer.Ok? && e.plane != Some(p)
    ensures var e := Submit(Some(p), true, body, surface, origin, token);
            e.plane.Some? && e.answer.value.meta.session.Some? &&
            var id := Trimmed(e.answer.value.meta.session.value);
            var step := Attach(e.plane.value, id, instance);
            step.answer.Ok? && MayContinue(step.plane, id, HandleOf(instance))
  {
    SubmitAttributes(Some(p), true, body, surface, origin, token);
    var e := Submit(Some(p), true, body, surface, origin, token);
    NewWorkAttaches(e.plane.value, Trimmed(e.answer.value.meta.session.value), instance);
  }

  lemma NewWorkAttaches(p: Plane, id: Name, instance: string)
    requires Sound(p) && Given(Some(instance)).Some? && HandleOf(instance) !in p.owners && RequireOpen(p, id).Ok?
    ensures var step := Attach(p, id, instance);
            step.answer.Ok? && MayContinue(step.plane, id, HandleOf(instance))
  {
    var i: Handle := HandleOf(instance);
    assert forall s :: Holds(p, s, i) ==> i in p.owners;
    AttachExactly(p, id, instance);
  }
}
