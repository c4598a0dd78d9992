// Endpoints that declare several response statuses: the switch in the Go route
// and the guards in the Python route that police what a handler returns.
//
// A handler returns an envelope of a status and an optional body.  A status may be
// declared with a type, then the body must be there, or without one, then it must not.
// Anything else is answered with an internal server error instead of the envelope.
module MultiStatus {
  import opened Options

  datatype Declared = Declared(status: int, typed: bool)

  // `hasBody`: the envelope has a body field.
  datatype Endpoint = Endpoint(statuses: seq<Declared>, hasBody: bool)

  // What the type checker guarantees of a multi-status endpoint.
  predicate Checked(ep: Endpoint) {
    && ep.statuses != []
    && (forall i, j :: 0 <= i < j < |ep.statuses| ==> ep.statuses[i].status != ep.statuses[j].status)
    && (ep.hasBody <==> exists d :: d in ep.statuses && d.typed)
  }

  lemma CheckedSamples()
    ensures Checked(Endpoint([Declared(200, true), Declared(204, false)], true))
    ensures Checked(Endpoint([Declared(202, false), Declared(204, false)], false))
    ensures !Checked(Endpoint([Declared(200, true), Declared(200, false)], true))
  {
    assert [Declared(200, true), Declared(204, false)][0].typed;
    assert [Declared(200, true), Declared(200, false)][0].status
        == [Declared(200, true), Declared(200, false)][1].status;
  }

  // A handler's envelope; without a body field the body is always absent.
  datatype Envelope<B> = Envelope(status: int, body: Option<B>)

  datatype Fault = NoBody | UnwantedBody | Undeclared

  datatype Reply<B> = Wire(status: int, body: Option<B>) | ServerError(fault: Fault)

  /** The statuses of one kind, in declaration order. */
  function Filtered(ds: seq<Declared>, typed: bool): (r: seq<int>)
    ensures forall s :: s in r <==> exists d :: d in ds && d.typed == typed && d.status == s
  {
    if ds == [] then []
    else
      assert ds == [ds[0]] + ds[1..];
      (if ds[0].typed == typed then [ds[0].status] else []) + Filtered(ds[1..], typed)
  }

  function AllStatuses(ds: seq<Declared>): (r: seq<int>)
    ensures forall s :: s in r <==> exists d :: d in ds && d.status == s
  {
    if ds == [] then [] else assert ds == [ds[0]] + ds[1..]; [ds[0].status] + AllStatuses(ds[1..])
  }

  // --------------------------------------------------------------------- Go's switch

  datatype BodyTest = MustHave | MustNotHave | NoTest

  // `case labels: test`; the default arm reports an undeclared status.
  datatype Arm = Arm(labels: seq<int>, test: BodyTest)

  function GoSwitch(ep: Endpoint): seq<Arm> {
    var typed, typeless := Filtered(ep.statuses, true), Filtered(ep.statuses, false);
    if !ep.hasBody then [Arm(typeless, NoTest)]
    else [Arm(typed, MustHave)] + if typeless == [] then [] else [Arm(typeless, MustNotHave)]
  }

  function RunGo<B>(ep: Endpoint, arms: seq<Arm>, e: Envelope<B>): Reply<B> {
    if arms == [] then ServerError(Undeclared)
    else if e.status !in arms[0].labels then RunGo(ep, arms[1..], e)
    else if arms[0].test.MustHave? && e.body.None? then ServerError(NoBody)
    else if arms[0].test.MustNotHave? && e.body.Some? then ServerError(UnwantedBody)
    else Wire(e.status, if ep.hasBody then e.body else None)
  }

  predicate Distinct(labels: seq<int>) { forall i, j :: 0 <= i < j < |labels| ==> labels[i] != labels[j] }

  /** Go accepts the switch: no arm is empty and no label occurs twice. */
  predicate Compiles(arms: seq<Arm>) {
    && (forall i :: 0 <= i < |arms| ==> arms[i].labels != [] && Distinct(arms[i].labels))
    && (forall i, j, s :: 0 <= i < j < |arms| && s in arms[i].labels ==> s !in arms[j].labels)
  }

  // ------------------------------------------------------------------ Python's guards

  // `if <condition>: return 500`, in order; falling through writes the envelope.
  datatype Guard =
    | NotIn(codes: seq<int>)
    | InWithoutBody(codes: seq<int>)
    | InWithBody(codes: seq<int>)

  function PythonGuards(ep: Endpoint): seq<Guard> {
    var typed, typeless := Filtered(ep.statuses, true), Filtered(ep.statuses, false);
    [NotIn(AllStatuses(ep.statuses))]
    + (if ep.hasBody then [InWithoutBody(typed)] + (if typeless == [] then [] else [InWithBody(typeless)]) else [])
  }

  function Fires<B>(g: Guard, e: Envelope<B>): Option<Fault> {
    match g
    case NotIn(codes) => if e.status !in codes then Some(Undeclared) else None
    case InWithoutBody(codes) => if e.status in codes && e.body.None? then Some(NoBody) else None
    case InWithBody(codes) => if e.status in codes && e.body.Some? then Some(UnwantedBody) else None
  }

  function RunPython<B>(ep: Endpoint, guards: seq<Guard>, e: Envelope<B>): Reply<B> {
    if guards == [] then Wire(e.status, if ep.hasBody then e.body else None)
    else match Fires(guards[0], e) case Some(f) => ServerError(f) case None => RunPython(ep, guards[1..], e)
  }

  // ------------------------------------------------------------------------ contract

  /** The declared contract: the status is declared, and the body present exactly when that status is typed. */
  predicate Allowed<B>(ep: Endpoint, e: Envelope<B>) {
    exists d :: d in ep.statuses && d.status == e.status && d.typed == e.body.Some?
  }

  predicate Declares(ep: Endpoint, status: int) { exists d :: d in ep.statuses && d.status == status }

  function Contract<B>(ep: Endpoint, e: Envelope<B>): Reply<B> {
    if Allowed(ep, e) then Wire(e.status, e.body)
    else if !Declares(ep, e.status) then ServerError(Undeclared)
    else ServerError(if e.body.None? then NoBody else UnwantedBody)
  }

  predicate DeclaredAs(ep: Endpoint, status: int, typed: bool) {
    exists d :: d in ep.statuses && d.status == status && d.typed == typed
  }

  /** Membership in the two lists decides everything. */
  lemma ByKind<B>(ep: Endpoint, e: Envelope<B>)
    requires Checked(ep)
    ensures var t, u := e.status in Filtered(ep.statuses, true), e.status in Filtered(ep.statuses, false);
            && !(t && u)
            && (Declares(ep, e.status) <==> t || u)
            && (e.status in AllStatuses(ep.statuses) <==> t || u)
            && (Allowed(ep, e) <==> (t && e.body.Some?) || (u && e.body.None?))
            && (t ==> ep.hasBody)
  {}

  lemma RunGoStep<B>(ep: Endpoint, arm: Arm, rest: seq<Arm>, e: Envelope<B>)
    ensures RunGo(ep, [arm] + rest, e) ==
            if e.status !in arm.labels then RunGo(ep, rest, e)
            else if arm.test.MustHave? && e.body.None? then ServerError(NoBody)
            else if arm.test.MustNotHave? && e.body.Some? then ServerError(UnwantedBody)
            else Wire(e.status, if ep.hasBody then e.body else None)
  {
    assert ([arm] + rest)[1..] == rest;
  }

  lemma GoEnforcesContract<B>(ep: Endpoint, e: Envelope<B>)
    requires Checked(ep) && (!ep.hasBody ==> e.body.None?)
    ensures RunGo(ep, GoSwitch(ep), e) == Contract(ep, e)
  {
    ByKind(ep, e);
    var typed, typeless := Filtered(ep.statuses, true), Filtered(ep.statuses, false);
    var last := if typeless == [] then [] else [Arm(typeless, MustNotHave)];
    RunGoStep(ep, Arm(typeless, NoTest), [], e);
    RunGoStep(ep, Arm(typed, MustHave), last, e);
    RunGoStep(ep, Arm(typeless, MustNotHave), [], e);
    assert forall arm: Arm :: [arm] + [] == [arm];
  }

  lemma RunPythonStep<B>(ep: Endpoint, g: Guard, rest: seq<Guard>, e: Envelope<B>)
    ensures RunPython(ep, [g] + rest, e)
            == match Fires(g, e) case Some(f) => ServerError(f) case None => RunPython(ep, rest, e)
  {
    assert ([g] + rest)[1..] == rest;
  }

  /** The guards on the body, where there is one. */
  lemma PythonBodyGuards<B>(ep: Endpoint, e: Envelope<B>)
    ensures var typed, typeless := Filtered(ep.statuses, true), Filtered(ep.statuses, false);
            var last := if typeless == [] then [] else [InWithBody(typeless)];
            RunPython(ep, [InWithoutBody(typed)] + last, e) ==
            if e.status in typed && e.body.None? then ServerError(NoBody)
            else if e.status in typeless && e.body.Some? then ServerError(UnwantedBody)
            else Wire(e.status, if ep.hasBody then e.body else None)
  {
    var typed, typeless := Filtered(ep.statuses, true), Filtered(ep.statuses, false);
    var last := if typeless == [] then [] else [InWithBody(typeless)];
    RunPythonStep(ep, InWithoutBody(typed), last, e);
    RunPythonStep(ep, InWithBody(typeless), [], e);
    assert [InWithBody(typeless)] + [] == [InWithBody(typeless)];
  }

  lemma PythonEnforcesContract<B>(ep: Endpoint, e: Envelope<B>)
    requires Checked(ep) && (!ep.hasBody ==> e.body.None?)
    ensures RunPython(ep, PythonGuards(ep), e) == Contract(ep, e)
  {
    ByKind(ep, e);
    PythonBodyGuards(ep, e);
    var typed, typeless := Filtered(ep.statuses, true), Filtered(ep.statuses, false);
    var last := if typeless == [] then [] else [InWithBody(typeless)];
    RunPythonStep(ep, NotIn(AllStatuses(ep.statuses)), if ep.hasBody then [InWithoutBody(typed)] + last else [], e);
  }

  /** Both servers enforce the contract, and report a breach of it alike. */
  lemma ServersAgree<B>(ep: Endpoint, e: Envelope<B>)
    requires Checked(ep) && (!ep.hasBody ==> e.body.None?)
    ensures RunGo(ep, GoSwitch(ep), e) == RunPython(ep, PythonGuards(ep), e)
    ensures RunGo(ep, GoSwitch(ep), e).Wire? <==> Allowed(ep, e)
  {
    GoEnforcesContract(ep, e);
    PythonEnforcesContract(ep, e);
  }

  lemma {:induction false} FilteredDistinct(ds: seq<Declared>, typed: bool)
    requires forall i, j :: 0 <= i < j < |ds| ==> ds[i].status != ds[j].status
    ensures Distinct(Filtered(ds, typed))
  {
    if ds != [] {
      FilteredDistinct(ds[1..], typed);
      assert forall d :: d in ds[1..] ==> d.status != ds[0].status;
      assert ds[0].status !in Filtered(ds[1..], typed);
    }
  }

  lemma KindsApart(ep: Endpoint, s: int)
    requires Checked(ep)
    ensures !(s in Filtered(ep.statuses, true) && s in Filtered(ep.statuses, false))
  {
    ByKind(ep, Envelope<bool>.Envelope(s, None));
  }

  lemma KindsNotEmpty(ep: Endpoint)
    requires Checked(ep)
    ensures Filtered(ep.statuses, ep.hasBody) != []
  {
    if ep.hasBody {
      var d :| d in ep.statuses && d.typed;
      assert d.status in Filtered(ep.statuses, true);
    } else {
      assert ep.statuses[0].status in Filtered(ep.statuses, false);
    }
  }

  lemma SwitchCompiles(ep: Endpoint)
    requires Checked(ep)
    ensures Compiles(GoSwitch(ep))
  {
    FilteredDistinct(ep.statuses, true);
    FilteredDistinct(ep.statuses, false);
    KindsNotEmpty(ep);
    forall s ensures !(s in Filtered(ep.statuses, true) && s in Filtered(ep.statuses, false)) { KindsApart(ep, s); }
  }

  lemma NoTypedWithoutBody(ep: Endpoint)
    requires Checked(ep)
    ensures !ep.hasBody ==> forall s :: s in Filtered(ep.statuses, false) <==> Declares(ep, s)
  {}

  // ------------------------------------------------------------------------ emission

  predicate InArm(arms: seq<Arm>, test: BodyTest, s: int) { exists a :: a in arms && a.test == test && s in a.labels }

  /** A guard fires on the status with a body, or without one. */
  predicate InGuard(guards: seq<Guard>, s: int, withBody: bool) {
    exists g :: g in guards && !g.NotIn? && g.InWithBody? == withBody && s in g.codes
  }

  predicate ArmFor(ep: Endpoint, test: BodyTest, s: int) {
    match test
    case MustHave => ep.hasBody && DeclaredAs(ep, s, true)
    case MustNotHave => ep.hasBody && DeclaredAs(ep, s, false)
    case NoTest => !ep.hasBody && DeclaredAs(ep, s, false)
  }

  lemma ArmsAre(ep: Endpoint, test: BodyTest, s: int)
    ensures InArm(GoSwitch(ep), test, s) <==> ArmFor(ep, test, s)
  {
    var typed, typeless := Filtered(ep.statuses, true), Filtered(ep.statuses, false);
    if !ep.hasBody {
      assert GoSwitch(ep) == [Arm(typeless, NoTest)] && GoSwitch(ep)[0] in GoSwitch(ep);
    } else if typeless == [] {
      assert GoSwitch(ep) == [Arm(typed, MustHave)] && GoSwitch(ep)[0] in GoSwitch(ep);
      assert s !in typeless;
    } else {
      var arms := GoSwitch(ep);
      assert arms == [Arm(typed, MustHave), Arm(typeless, MustNotHave)] && arms[0] in arms && arms[1] in arms;
    }
  }

  lemma GuardsAre(ep: Endpoint, s: int)
    ensures InGuard(PythonGuards(ep), s, false) <==> ep.hasBody && DeclaredAs(ep, s, true)
    ensures InGuard(PythonGuards(ep), s, true) <==> ep.hasBody && DeclaredAs(ep, s, false)
  {
    var typed, typeless, guards := Filtered(ep.statuses, true), Filtered(ep.statuses, false), PythonGuards(ep);
    if ep.hasBody {
      assert guards[1] == InWithoutBody(typed) && guards[1] in guards;
      if typeless == [] {
        assert |guards| == 2 && s !in typeless;
      } else {
        assert |guards| == 3 && guards[2] == InWithBody(typeless) && guards[2] in guards;
      }
    }
  }

  /** The switch of the Go route: a status stands in the arm its declaration asks for, and in no other. */
  method EmitGoSwitch(ep: Endpoint) returns (arms: seq<Arm>)
    ensures arms == GoSwitch(ep)
    ensures Checked(ep) ==> Compiles(arms)
    ensures Checked(ep) ==> forall s :: InArm(arms, MustHave, s) <==> ep.hasBody && DeclaredAs(ep, s, true)
    ensures Checked(ep) ==> forall s :: InArm(arms, MustNotHave, s) <==> ep.hasBody && DeclaredAs(ep, s, false)
    ensures Checked(ep) ==> forall s :: InArm(arms, NoTest, s) <==> !ep.hasBody && Declares(ep, s)
  {
    var typed, typeless := Filtered(ep.statuses, true), Filtered(ep.statuses, false);
    arms := [];
    if ep.hasBody {
      arms := arms + [Arm(typed, MustHave)];
      if typeless != [] {
        arms := arms + [Arm(typeless, MustNotHave)];
      }
    } else {
      arms := arms + [Arm(typeless, NoTest)];
    }
    if Checked(ep) {
      SwitchCompiles(ep);
      NoTypedWithoutBody(ep);
      forall s, test ensures InArm(arms, test, s) <==> ArmFor(ep, test, s) { ArmsAre(ep, test, s); }
    }
  }

  /** The guards of the Python route: first the declared statuses, then the two body tests. */
  method EmitPythonGuards(ep: Endpoint) returns (guards: seq<Guard>)
    ensures guards == PythonGuards(ep)
    ensures guards[0].NotIn? && forall s :: s in guards[0].codes <==> Declares(ep, s)
    ensures forall s :: InGuard(guards, s, false) <==> ep.hasBody && DeclaredAs(ep, s, true)
    ensures forall s :: InGuard(guards, s, true) <==> ep.hasBody && DeclaredAs(ep, s, false)
  {
    guards := [NotIn(AllStatuses(ep.statuses))];
    if ep.hasBody {
      var typed, typeless := Filtered(ep.statuses, true), Filtered(ep.statuses, false);
      guards := guards + [InWithoutBody(typed)];
      if typeless != [] {
        guards := guards + [InWithBody(typeless)];
      }
    }
    forall s ensures InGuard(guards, s, false) <==> ep.hasBody && DeclaredAs(ep, s, true)
             ensures InGuard(guards, s, true) <==> ep.hasBody && DeclaredAs(ep, s, false) {
      GuardsAre(ep, s);
    }
  }
}
