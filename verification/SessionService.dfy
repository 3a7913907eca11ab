/** The product's session service: gates for continues, sessions for starts. */
module SessionServices {
  import opened Basics
  import opened Texts
  import opened SessionIds
  import opened Sessions
  import opened SessionPlanes
  import opened Attribution

  datatype Target = Target(session: Option<Name>, instance: Option<Handle>)

  /** The parameter dictionary that a gate may complete with the bound session. */
  class Params {
    var session: Option<string>

    constructor (session: Option<string>)
      ensures this.session == session
    {
      this.session := session;
    }
  }

  class SessionService {
    /** Null while the runtime is not ready. */
    const plane: SessionPlane?
    const strict: bool
    /** Does inspecting the product find this instance. */
    const known: Handle -> bool
    /** The attached instances of a session with open waits, oldest wait first. */
    const waiting: Name -> seq<Option<Handle>>

    constructor (plane: SessionPlane?, strict: bool, known: Handle -> bool, waiting: Name -> seq<Option<Handle>>)
      ensures this.plane == plane && this.strict == strict && this.known == known && this.waiting == waiting
    {
      this.plane, this.strict, this.known, this.waiting := plane, strict, known, waiting;
    }

    ghost function View(): Option<Plane>
      reads if plane == null then {} else {plane.store}
    {
      if plane == null then None else Some(plane.View())
    }

    /** The session may continue the instance, as far as the plane knows. */
    ghost predicate Entitled(t: Target)
      reads if plane == null then {} else {plane.store}
    {
      plane != null && t.session.Some? && t.instance.Some? && MayContinue(plane.View(), t.session.value, t.instance.value)
    }

    /**
     * The pair to continue with, or the refusal, for every mix of arguments. When it is gated, the plane is
     * there and both ids come back, the session holds the instance and is not closed; in strict mode no
     * instance comes back without its session.
     */
    method ContinueTarget(session: Option<string>, instance: Option<string>, gate: bool) returns (a: Answer<Target>)
      requires Ready(View())
      ensures gate && plane != null && a.Ok? && a.value.session.Some? && a.value.instance.Some? ==> Entitled(a.value)
      ensures gate && plane != null && strict && a.Ok? && a.value.instance.Some? ==> a.value.session.Some?
      ensures var asked, work := Subject(session, instance), Work(session, instance);
              if asked.None? then Unbound(Given(session), work, gate, a)
              else if work.None? then Resolved(asked.value, a)
              else Bound(asked.value, work.value, gate, a)
    {
      GivenIsTidy(session);
      GivenIsTidy(instance);
      var sid, iid := Given(session), Given(instance);
      if Shaped(iid) && !Shaped(sid) {
        sid, iid := iid, None;
      }
      if Shaped(sid) {
        if iid.None? || Shaped(iid) {
          var resolved := ResolveContinue(sid.value);
          if resolved.Raised? {
            return Raised(resolved.fault);
          }
          iid := resolved.value;
        }
        if gate && iid.Some? {
          if plane == null {
            return Raised(NoPlane);
          }
          TidyAgain(sid.value);
          TidyAgain(iid.value);
          var owned := plane.RequireOwnedInstance(sid.value.text, iid.value.text);
          if owned.Raised? {
            return Raised(owned.fault);
          }
        }
        return Ok(Target(sid, iid));
      }
      if Shaped(iid) {
        assert false;
      }
      if gate && iid.Some? && plane != null {
        TidyAgain(iid.value);
        var params := new Params(None);
        var bound := GateBoundSessionOwns(iid.value.text, params, None, false);
        return if bound.Raised? then Raised(bound.fault)
               else Ok(Target(if bound.value.Some? then bound.value else Given(params.session), iid));
      }
      return Ok(Target(sid, iid));
    }

    /** A system session without an instance: the one it prefers, or none if it holds none. */
    ghost predicate Resolved(session: Name, a: Answer<Target>)
      reads if plane == null then {} else {plane.store}
    {
      if plane == null then a == Raised(NoPlane)
      else
        var open := RequireOpen(plane.View(), session);
        if open.Raised? then a == Raised(open.fault)
        else
          && a.Ok? && a.value.session == Some(session)
          && (a.value.instance.None? <==> open.value.instances == [])
          && (a.value.instance.Some? ==>
                Preferred(plane.View().entries[session], waiting(session), a.value.instance.value))
    }

    /** A system session and an instance: that pair, behind the gate only if the session may continue it. */
    ghost predicate Bound(session: Name, instance: Handle, gate: bool, a: Answer<Target>)
      reads if plane == null then {} else {plane.store}
    {
      var pair := Ok(Target(Some(session), Some(instance)));
      if !gate then a == pair
      else if plane == null then a == Raised(NoPlane)
      else if MayContinue(plane.View(), session, instance) then a == pair
      else a == Raised(GateFault(plane.View(), session))
    }

    /** No system session: the arguments as they are, unless the gate is there to find the owner. */
    ghost predicate Unbound(session: Option<Name>, instance: Option<Handle>, gate: bool, a: Answer<Target>)
      reads if plane == null then {} else {plane.store}
    {
      if instance.None? || !gate || plane == null then a == Ok(Target(session, instance))
      else if !strict then a == Ok(Target(None, instance))
      else
        && (a.Ok? <==> exists s :: MayContinue(plane.View(), s, instance.value))
        && (a.Ok? ==> a.value.session.Some? && a.value.instance == instance)
        && (a == Raised(Unattributed) <==> forall s :: !Holds(plane.View(), s, instance.value))
        && (a.Raised? && a.fault != Unattributed ==> a.fault == SessionClosed)
    }

    /** `resolve_continue_instance`, which needs a plane. */
    method ResolveContinue(session: Name) returns (a: Answer<Option<Handle>>)
      requires Ready(View())
      ensures if plane == null then a == Raised(NoPlane)
              else
                var open := RequireOpen(plane.View(), session);
                if open.Raised? then a == Raised(open.fault)
                else
                  && a.Ok? && (a.value.None? <==> open.value.instances == [])
                  && (a.value.Some? ==>
                        && MayContinue(plane.View(), session, a.value.value)
                        && Preferred(plane.View().entries[session], waiting(session), a.value.value))
    {
      if plane == null {
        return Raised(NoPlane);
      }
      a := plane.ResolveContinueInstance(session, waiting(session));
    }

    /**
     * The gate before a continue. A session that comes back may continue the instance and is the one in
     * params; otherwise params is unchanged.
     */
    method GateBoundSessionOwns(instance: string, params: Params?, strictly: Option<bool>, allowUnknown: bool)
      returns (a: Answer<Option<Name>>)
      requires Ready(View())
      modifies params
      ensures View() == old(View())
      ensures params != null ==>
                if a.Ok? && a.value.Some? && !LooksSystem(old(params.session)) then params.session == Some(a.value.value.text)
                else params.session == old(params.session)
      ensures params != null && a.Ok? && a.value.Some? ==> Given(params.session) == a.value
      ensures plane == null ==> a == Ok(None)
      ensures plane != null ==>
                var sid := if params != null && LooksSystem(old(params.session)) then Given(old(params.session)) else None;
                if sid.None? && !strictly.GetOr(strict) then a == Ok(None)
                else if Given(Some(instance)).None? then a == Raised(PlaneError)
                else Gated(plane.View(), HandleOf(instance), sid, allowUnknown, a)
    {
      if plane == null {
        return Ok(None);
      }
      var raw := if params == null then None else params.session;
      var sid := if LooksSystem(raw) then Given(raw) else None;
      GivenIsTidy(raw);
      var useStrict := strictly.GetOr(strict);
      if !useStrict && sid.None? {
        return Ok(None);
      }
      if sid.Some? {
        TidyAgain(sid.value);
      }
      StripTwice(instance);
      a := plane.RequireContinueAttribution(Strip(instance), if sid.Some? then Some(sid.value.text) else None, useStrict);
      if a == Raised(Unattributed) {
        var seen := Known(Strip(instance));
        if useStrict && sid.None? && allowUnknown && !seen {
          return Ok(None);
        }
        return;
      }
      if a.Ok? && a.value.Some? && !LooksSystem(raw) && params != null {
        params.session := Some(a.value.value.text);
      }
    }

    /** `_instance_known`. */
    method Known(instance: string) returns (yes: bool)
      ensures yes == (Given(Some(instance)).Some? && known(HandleOf(instance)))
    {
      return Given(Some(instance)).Some? && known(HandleOf(instance));
    }

    /** What the gate answers once it is applied. */
    ghost predicate Gated(p: Plane, i: Handle, session: Option<Name>, allowUnknown: bool, a: Answer<Option<Name>>) {
      && (a.Ok? && a.value.Some? ==> MayContinue(p, a.value.value, i))
      && if session.Some? then
           a == if MayContinue(p, session.value, i) then Ok(session) else Raised(GateFault(p, session.value))
         else
           && (a.Ok? && a.value.Some? <==> exists s :: MayContinue(p, s, i))
           && (a == Ok(None) <==> allowUnknown && !known(i) && forall s :: !Holds(p, s, i))
           && (a == Raised(Unattributed) <==> !(allowUnknown && !known(i)) && forall s :: !Holds(p, s, i))
           && (a.Raised? && a.fault != Unattributed ==> a.fault == SessionClosed)
    }

    /** A system session id that is given, or a new one: of the origin if there is one, else an outside session. */
    method EnsureSystemSessionId(session: Option<string>, meta: Option<string>, create: bool, origin: string, token: Token)
      returns (id: Option<Name>)
      modifies if plane == null then {} else {plane.store}
      ensures var given := FirstSystem([session, meta]);
              (given.Some? || !create ==> id == given && View() == old(View()))
              && (given.None? && create && origin != "" ==> (View(), id) == ServiceSession(old(View()), origin))
              && (given.None? && create && origin == "" ==>
                    if plane == null then id == None
                    else
                      var step := Bind(old(plane.View()), None, true, token);
                      plane.View() == step.plane && id == if step.answer.Ok? then Some(step.answer.value.id) else None)
    {
      FirstAfter(session, [meta]);
      FirstAfter(meta, []);
      if LooksSystem(session) {
        return Some(Trimmed(session.value));
      }
      if LooksSystem(meta) {
        return Some(Trimmed(meta.value));
      }
      if !create {
        return None;
      }
      if origin != "" {
        id := EnsureService(origin);
        return;
      }
      if plane == null {
        return None;
      }
      var bind := plane.BindSession(None, true, token);
      return if bind.Ok? then Some(bind.value.id) else None;
    }

    method EnsureService(origin: string) returns (id: Option<Name>)
      modifies if plane == null then {} else {plane.store}
      ensures (View(), id) == ServiceSession(old(View()), origin)
    {
      if plane == null {
        return None;
      }
      var rec := plane.EnsureServiceSession(origin);
      return if rec.Ok? then Some(rec.value.id) else None;
    }

    method EnrichReactiveStart(body: Body, origin: string, surface: string) returns (a: Answer<Body>)
      modifies if plane == null then {} else {plane.store}
      ensures Enriched(View(), a) == Reactive(old(View()), strict, body, origin, surface)
    {
      var from := OriginOf(origin, surface);
      var candidates := [body.session, body.meta.session, body.meta.parent];
      var inherited: Option<Name> := None;
      for k := 0 to |candidates|
        invariant inherited == None && FirstSystem(candidates) == FirstSystem(candidates[k..])
      {
        if LooksSystem(candidates[k]) {
          inherited := Some(Trimmed(candidates[k].value));
          break;
        }
      }
      var meta := body.meta;
      if inherited.Some? {
        meta := meta.(session := Some(inherited.value.text), attribution := Some("inherit"));
        if meta.origin.None? {
          meta := meta.(origin := Some(from));
        }
        return Ok(body.(meta := meta));
      }
      var sid := EnsureService(from);
      if sid.Some? {
        meta := meta.(session := Some(sid.value.text), origin := Some(from), attribution := Some("service"));
        return Ok(body.(meta := meta));
      }
      if strict && plane != null {
        return Raised(Unattributed);
      }
      return Ok(body);
    }

    method EnrichSubmitBody(body: Body, surface: string, origin: Option<string>, token: Token) returns (a: Answer<Body>)
      modifies if plane == null then {} else {plane.store}
      ensures Enriched(View(), a) == Submit(old(View()), strict, body, surface, origin, token)
    {
      var hint := Given(if origin.Some? && origin.value != "" then origin else body.meta.origin);
      if hint.None? && surface in AUTOMATED {
        hint := Some(Name(surface));
      }
      if hint.Some? {
        a := EnrichReactiveStart(body, hint.value.text, surface);
        return;
      }
      var candidates := [body.session, body.meta.session];
      var sid: Option<Name> := None;
      for k := 0 to |candidates|
        invariant sid == None && FirstSystem(candidates) == FirstSystem(candidates[k..])
      {
        if LooksSystem(candidates[k]) {
          sid := Some(Trimmed(candidates[k].value));
          break;
        }
      }
      if sid.None? {
        sid := EnsureSystemSessionId(None, None, true, "", token);
      }
      if sid.Some? {
        return Ok(Carrying(body, sid.value));
      }
      return if strict && plane != null then Raised(Unattributed) else Ok(body);
    }
  }

  predicate Shaped(n: Option<Name>) {
    n.Some? && System(n.value)
  }

  /** The session asked for: a system id in its own place, else one in the instance's place. */
  function Subject(session: Option<string>, instance: Option<string>): Option<Name> {
    if LooksSystem(session) then Given(session) else if LooksSystem(instance) then Given(instance) else None
  }

  /** The instance asked for: an id that does not look like a session. */
  function Work(session: Option<string>, instance: Option<string>): Option<Handle> {
    GivenIsTidy(instance);
    if LooksSystem(instance) then None else Given(instance)
  }

  /** How the two arguments of a continue are read: a system id in the place of the instance stands for the session, if
      that is not one itself; an instance is only what does not look like a session. */
  lemma ArgumentsAre(session: Option<string>, instance: Option<string>)
    ensures LooksSystem(session) ==> Subject(session, instance) == Some(Name(Strip(session.value)))
    ensures !LooksSystem(session) && LooksSystem(instance) ==> Subject(session, instance) == Some(Name(Strip(instance.value)))
    ensures !LooksSystem(session) && !LooksSystem(instance) ==> Subject(session, instance) == None
    ensures Work(session, instance).Some? <==> instance.Some? && Strip(instance.value) != "" && !LooksSystem(instance)
    ensures Work(session, instance).Some? ==> Work(session, instance).value == Name(Strip(instance.value))
  {}

  lemma TidyAgain(n: Handle)
    ensures Given(Some(n.text)) == Some(n) && HandleOf(n.text) == n
  {}
}
