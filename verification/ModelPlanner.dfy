/** `PromptDrivenPlanner` of src/aether_forge/planner.py: what becomes of a model's answer, and why no
    answer makes a session run anything it has not declared. */
module ModelPlanner {
  import opened Results
  import opened Values
  import opened Runtime
  import opened RuntimeSafety
  import Heuristic
  import Policy
  import RuntimeExits
  import JsonScanner

  // ----- the answer -----

  /** What `json.loads` returns. */
  datatype Json =
    | JNull
    | JBool(b: bool)
    | JNumber(n: real)
    | JText(s: string)
    | JList(items: seq<Json>)
    | JObject(fields: map<string, Json>)

  /** What `json.loads` does: it returns a value, raises JSONDecodeError, or raises something else. */
  datatype Loaded = Parsed(v: Json) | Malformed | Crashed

  /** `json.loads`, and an identity for containers that stay opaque in a payload. */
  datatype Library = Library(loads: string -> Loaded, tag: Json -> int)

  // ----- cleaning: white space and one fence pair -----

  /** ASCII white space. */
  predicate IsSpace(c: char) {
    c == ' ' || '\t' <= c <= '\r' || '\U{1C}' <= c <= '\U{1F}'
  }

  /** The ten ASCII codes that `str.strip` removes. */
  lemma SpaceIs(c: char)
    ensures IsSpace(c) <==> c as int in {9, 10, 11, 12, 13, 28, 29, 30, 31, 32}
  {
  }

  /** `[a-zA-Z0-9_-]`. */
  predicate IsTag(c: char) {
    'a' <= c <= 'z' || 'A' <= c <= 'Z' || '0' <= c <= '9' || c == '_' || c == '-'
  }

  function TrimLeft(s: string): string {
    if s != "" && IsSpace(s[0]) then TrimLeft(s[1..]) else s
  }

  function TrimRight(s: string): string {
    if s != "" && IsSpace(s[|s| - 1]) then TrimRight(s[..|s| - 1]) else s
  }

  /** `str.strip`. */
  function Strip(s: string): string {
    TrimRight(TrimLeft(s))
  }

  function DropTag(s: string): string {
    if s != "" && IsTag(s[0]) then DropTag(s[1..]) else s
  }

  const FENCE: string := "```"

  /** Removes an opening fence at the start, its tag, and the white space after it. */
  function DropOpenFence(s: string): string {
    if FENCE <= s then TrimLeft(DropTag(s[3..])) else s
  }

  /** Removes a closing fence at the end, the white space after it, and one line feed before it. */
  function DropCloseFence(s: string): string {
    var t := TrimRight(s);
    if |t| < 3 || t[|t| - 3..] != FENCE then s
    else
      var u := t[..|t| - 3];
      if u != "" && u[|u| - 1] == '\n' then u[..|u| - 1] else u
  }

  /** The text `_extract_json` parses. */
  function Clean(response: string): string {
    Strip(DropCloseFence(DropOpenFence(Strip(response))))
  }

  /** What `_extract_json` gets: nothing from blank text, the meaning of the cleaned text when it parses, else
      that of the largest balanced candidate. */
  ghost predicate Extracts(lib: Library, response: string, r: Loaded) {
    if Strip(response) == "" then r == Malformed
    else if !lib.loads(Clean(response)).Malformed? then r == lib.loads(Clean(response))
    else exists c :: JsonScanner.IsLargest(Clean(response), c) && r == (if c.Some? then lib.loads(c.value) else Malformed)
  }

  /** `_extract_json`; `Malformed` is the PlannerParseError. */
  method ExtractJson(lib: Library, response: string) returns (r: Loaded)
    ensures Extracts(lib, response, r)
  {
    if Strip(response) == "" {
      return Malformed;
    }
    var text := Clean(response);
    r := lib.loads(text);
    if !r.Malformed? {
      return;
    }
    var candidate := JsonScanner.LargestBalancedJson(text);
    if candidate.Some? {
      r := lib.loads(candidate.value);
    }
  }

  predicate JTruthy(v: Json) {
    match v
    case JNull => false
    case JBool(b) => b
    case JNumber(n) => n != 0.0
    case JText(s) => s != ""
    case JList(items) => items != []
    case JObject(fields) => fields != map[]
  }

  function Field(fields: map<string, Json>, key: string): Json {
    if key in fields then fields[key] else JNull
  }

  function ToValue(lib: Library, v: Json): Value {
    match v
    case JNull => Null
    case JBool(b) => Bool(b)
    case JNumber(n) => Number(n)
    case JText(s) => Text(s)
    case _ => Opaque(lib.tag(v), JTruthy(v))
  }

  function PayloadOf(lib: Library, fields: map<string, Json>): Payload {
    match Field(fields, "payload")
    case JObject(inner) => map key | key in inner :: ToValue(lib, inner[key])
    case _ => map[]
  }

  function CapabilityOf(fields: map<string, Json>): Json {
    var camel := Field(fields, "capabilityId");
    if JTruthy(camel) then camel else Field(fields, "capability_id")
  }

  /** Kinds that name a capability to use. */
  predicate NeedsCapability(k: Kind) {
    k == UseCapability || k == RequestApproval
  }

  /** One round of the loop in `_parse_response`: the proposal it appends, if any. */
  function ReadStep(lib: Library, declared: set<string>, step: Json): Option<Proposal> {
    if !step.JObject? then None
    else
      var kindField, description := Field(step.fields, "kind"), Field(step.fields, "description");
      if !kindField.JText? || !description.JText? || Strip(description.s) == "" then None
      else
        var kind :- ParseKind(kindField.s);
        var capability := CapabilityOf(step.fields);
        if NeedsCapability(kind) && !capability.JText? then None
        else if NeedsCapability(kind) && capability.s !in declared then
          Some(Proposal(ReportGap, UNDECLARED + capability.s + ".", None,
                        map["requestedCapability" := Text(capability.s)]))
        else Some(Proposal(kind, Strip(description.s), if capability.JText? then Some(capability.s) else None,
                           PayloadOf(lib, step.fields)))
  }

  /** What each round of the loop appends, in order. */
  function Readings(lib: Library, declared: set<string>, steps: seq<Json>): seq<Option<Proposal>> {
    seq(|steps|, i requires 0 <= i < |steps| => ReadStep(lib, declared, steps[i]))
  }

  function Kept(readings: seq<Option<Proposal>>): seq<Proposal> {
    if readings == [] then []
    else
      Kept(readings[..|readings| - 1]) +
      match readings[|readings| - 1] case None => [] case Some(p) => [p]
  }

  lemma KeptOneMore(readings: seq<Option<Proposal>>, r: Option<Proposal>)
    ensures Kept(readings + [r]) == Kept(readings) + match r case None => [] case Some(p) => [p]
  {
    assert (readings + [r])[..|readings|] == readings;
  }

  function ReadSteps(lib: Library, declared: set<string>, steps: seq<Json>): seq<Proposal> {
    Kept(Readings(lib, declared, steps))
  }

  /** A Python slice `xs[:n]`; a negative bound counts from the end. */
  function SliceTo<T>(xs: seq<T>, n: int): seq<T> {
    var k := if n < 0 then |xs| + n else n;
    if k <= 0 then [] else if k >= |xs| then xs else xs[..k]
  }

  lemma ReadOneMore(lib: Library, declared: set<string>, steps: seq<Json>, i: nat)
    requires i < |steps|
    ensures ReadSteps(lib, declared, steps[..i + 1]) == ReadSteps(lib, declared, steps[..i]) +
      match ReadStep(lib, declared, steps[i]) case None => [] case Some(p) => [p]
  {
    assert Readings(lib, declared, steps[..i + 1]) ==
      Readings(lib, declared, steps[..i]) + [ReadStep(lib, declared, steps[i])];
    KeptOneMore(Readings(lib, declared, steps[..i]), ReadStep(lib, declared, steps[i]));
  }

  function StepsOf(answer: Json): seq<Json> {
    var raw := if answer.JObject? then Field(answer.fields, "steps") else answer;
    if raw.JList? then raw.items else []
  }

  /** `_parse_response` after the extraction. */
  method ParseResponse(lib: Library, declared: set<string>, maxPlanSteps: int, answer: Json)
    returns (proposals: seq<Proposal>)
    ensures proposals == ReadSteps(lib, declared, SliceTo(StepsOf(answer), maxPlanSteps))
  {
    var steps := SliceTo(StepsOf(answer), maxPlanSteps);
    proposals := [];
    var i := 0;
    while i < |steps|
      invariant i <= |steps|
      invariant proposals == ReadSteps(lib, declared, steps[..i])
    {
      ReadOneMore(lib, declared, steps, i);
      var p := ReadStep(lib, declared, steps[i]);
      if p.Some? {
        proposals := proposals + [p.value];
      }
      i := i + 1;
    }
    assert steps[..i] == steps;
  }

  // ----- tool mode -----

  datatype ToolCall = ToolCall(name: string, arguments: Payload)

  /** A provider's tool-use answer; an absent text is empty. */
  datatype ToolResponse = ToolResponse(reasoning: string, calls: seq<ToolCall>, finalMessage: string, requiresApproval: bool)

  const UNDECLARED: string := "Planner proposed undeclared capability "
  const NO_PLAN: string := "Planner response did not contain"

  function CallProposal(declared: set<string>, requiresApproval: bool, call: ToolCall): Proposal {
    if call.name !in declared then
      Proposal(ReportGap, UNDECLARED + call.name + ".", None,
               map["requestedCapability" := Text(call.name)])
    else
      Proposal(if requiresApproval then RequestApproval else UseCapability, "Execute capability " + call.name + ".",
               Some(call.name), call.arguments)
  }

  function CallProposals(declared: set<string>, requiresApproval: bool, calls: seq<ToolCall>): seq<Proposal> {
    seq(|calls|, i requires 0 <= i < |calls| => CallProposal(declared, requiresApproval, calls[i]))
  }

  function Spoken(text: string, complete: bool): seq<Proposal> {
    if text == "" then [] else [Proposal(Reason, text, None, map["mark_complete" := Bool(complete)])]
  }

  /** `FunctionCallTranslator.translate` of src/aether_forge/adapters/function_call.py. */
  function Translate(declared: set<string>, maxPlanSteps: int, r: ToolResponse): seq<Proposal> {
    var proposals := Spoken(r.reasoning, false)
      + CallProposals(declared, r.requiresApproval, SliceTo(r.calls, maxPlanSteps))
      + Spoken(r.finalMessage, true);
    if proposals == [] then
      [Proposal(ReportGap, NO_PLAN + " any actionable plan elements.", None, map["source" := Text("function-call-adapter")])]
    else proposals
  }

  method TranslateCalls(declared: set<string>, maxPlanSteps: int, r: ToolResponse) returns (proposals: seq<Proposal>)
    ensures proposals == Translate(declared, maxPlanSteps, r)
  {
    proposals := Spoken(r.reasoning, false);
    ghost var first := proposals;
    var calls := SliceTo(r.calls, maxPlanSteps);
    for i := 0 to |calls|
      invariant proposals == first + CallProposals(declared, r.requiresApproval, calls[..i])
    {
      proposals := proposals + [CallProposal(declared, r.requiresApproval, calls[i])];
    }
    assert calls[..|calls|] == calls;
    proposals := proposals + Spoken(r.finalMessage, true);
    if proposals == [] {
      proposals := [Proposal(ReportGap, NO_PLAN + " any actionable plan elements.", None,
                             map["source" := Text("function-call-adapter")])];
    }
  }

  predicate Contains(text: string, part: string) {
    exists i :: 0 <= i <= |text| && part <= text[i..]
  }

  predicate Actionable(p: Proposal) {
    p.kind != ReportGap || !Contains(p.description, NO_PLAN)
  }

  // ----- the planner -----

  datatype Failure = ModelError | ParseFailure | ParseException | EmptyPlan

  /** What the model's answer comes to: none that can be used, a JSON value, or tool calls. */
  datatype Reply = Unusable | Said(v: Json) | Called(response: ToolResponse)

  /** The plan made of a reply; `fallback` is the heuristic plan. */
  function PlanFrom(lib: Library, declared: set<string>, maxPlanSteps: int, reply: Reply, fallback: seq<Proposal>): seq<Proposal> {
    match reply
    case Unusable => fallback
    case Said(v) =>
      var proposals := ReadSteps(lib, declared, SliceTo(StepsOf(v), maxPlanSteps));
      if proposals == [] then fallback else proposals
    case Called(response) =>
      var proposals := Translate(declared, maxPlanSteps, response);
      if exists p :: p in proposals && Actionable(p) then proposals else fallback
  }

  function ReplyOf(loaded: Loaded): Reply {
    if loaded.Parsed? then Said(loaded.v) else Unusable
  }

  /** `propose_plan` in string mode; `response` is `None` when the model raised. */
  method ProposePlan(lib: Library, declared: set<string>, maxPlanSteps: int, response: Option<string>,
                     fallback: seq<Proposal>)
    returns (plan: seq<Proposal>, failure: Option<Failure>)
    ensures failure == Some(ModelError) <==> response.None?
    ensures response.Some? ==> exists loaded :: (
        && Extracts(lib, response.value, loaded)
        && plan == PlanFrom(lib, declared, maxPlanSteps, ReplyOf(loaded), fallback)
        && (failure == Some(ParseFailure) <==> loaded.Malformed?)
        && (failure == Some(ParseException) <==> loaded.Crashed?)
        && (failure == Some(EmptyPlan) <==>
              loaded.Parsed? && ReadSteps(lib, declared, SliceTo(StepsOf(loaded.v), maxPlanSteps)) == []))
    ensures failure.Some? ==> plan == fallback
    ensures failure.None? ==> plan != []
  {
    if response.None? {
      return fallback, Some(ModelError);
    }
    var loaded := ExtractJson(lib, response.value);
    match loaded
    case Malformed => return fallback, Some(ParseFailure);
    case Crashed => return fallback, Some(ParseException);
    case Parsed(v) =>
      plan := ParseResponse(lib, declared, maxPlanSteps, v);
      if plan == [] {
        return fallback, Some(EmptyPlan);
      }
      return plan, None;
  }

  /** `_propose_plan_tool_mode`; `response` is `None` when the model raised or offers no tool use. */
  method ProposePlanToolMode(lib: Library, declared: set<string>, maxPlanSteps: int, response: Option<ToolResponse>,
                             fallback: seq<Proposal>)
    returns (plan: seq<Proposal>, failure: Option<Failure>)
    ensures failure == Some(ModelError) <==> response.None?
    ensures plan == PlanFrom(lib, declared, maxPlanSteps, if response.Some? then Called(response.value) else Unusable, fallback)
    ensures failure.Some? ==> plan == fallback
    ensures failure == Some(EmptyPlan) <==>
      response.Some? && forall p :: p in Translate(declared, maxPlanSteps, response.value) ==> !Actionable(p)
    ensures failure == None || failure == Some(ModelError) || failure == Some(EmptyPlan)
    ensures failure.None? ==> exists p :: p in plan && Actionable(p)
  {
    if response.None? {
      return fallback, Some(ModelError);
    }
    var proposals := TranslateCalls(declared, maxPlanSteps, response.value);
    if exists p :: p in proposals && Actionable(p) {
      return proposals, None;
    }
    return fallback, Some(EmptyPlan);
  }

  // ----- a plan survives its own printing -----

  /** A proposal the planning prompt allows a model to make. */
  ghost predicate Sayable(lib: Library, declared: set<string>, p: Proposal) {
    && !p.kind.Named?
    && Strip(p.description) == p.description != ""
    && (NeedsCapability(p.kind) ==> p.capabilityId.Some? && p.capabilityId.value in declared)
    && p.capabilityId != Some("")
    && forall key :: key in p.payload ==> IsSayable(lib, p.payload[key])
  }

  /** Some JSON value is read as `v`. */
  ghost predicate IsSayable(lib: Library, v: Value) {
    exists j :: ToValue(lib, j) == v
  }

  ghost function FromValue(lib: Library, v: Value): Json
    ensures IsSayable(lib, v) ==> ToValue(lib, FromValue(lib, v)) == v
  {
    if IsSayable(lib, v) then
      var j :| ToValue(lib, j) == v;
      j
    else JNull
  }

  ghost function SayPayload(lib: Library, payload: Payload): map<string, Json> {
    map key | key in payload :: FromValue(lib, payload[key])
  }

  /** The step object of the answer schema. */
  ghost function SayStep(lib: Library, p: Proposal): Json {
    JObject(map[
      "kind" := JText(KindName(p.kind).GetOr("")),
      "description" := JText(p.description),
      "capabilityId" := if p.capabilityId.Some? then JText(p.capabilityId.value) else JNull,
      "payload" := JObject(SayPayload(lib, p.payload))])
  }

  ghost function SaySteps(lib: Library, plan: seq<Proposal>): seq<Json> {
    if plan == [] then [] else SaySteps(lib, plan[..|plan| - 1]) + [SayStep(lib, plan[|plan| - 1])]
  }

  /** `{"steps": […]}`. */
  ghost function Say(lib: Library, plan: seq<Proposal>): Json {
    JObject(map["steps" := JList(SaySteps(lib, plan))])
  }

  lemma SaidFields(lib: Library, p: Proposal)
    ensures var fields := SayStep(lib, p).fields;
      && Field(fields, "kind") == JText(KindName(p.kind).GetOr(""))
      && Field(fields, "description") == JText(p.description)
      && Field(fields, "capabilityId") == (if p.capabilityId.Some? then JText(p.capabilityId.value) else JNull)
      && Field(fields, "capability_id") == JNull
      && Field(fields, "payload") == JObject(SayPayload(lib, p.payload))
  {
    assert |"kind"| == 4 && |"description"| == 11 && |"capabilityId"| == 12 && |"capability_id"| == 13 && |"payload"| == 7;
  }

  lemma ReadSaidStep(lib: Library, declared: set<string>, p: Proposal)
    requires Sayable(lib, declared, p)
    ensures ReadStep(lib, declared, SayStep(lib, p)) == Some(p)
  {
    SaidFields(lib, p);
    NamesRoundTrip(p.kind, Proposed, Running);
    var fields := SayStep(lib, p).fields;
    assert PayloadOf(lib, fields) == p.payload;
    assert CapabilityOf(fields).JText? <==> p.capabilityId.Some?;
  }

  lemma {:induction false} KeptAll(readings: seq<Option<Proposal>>, plan: seq<Proposal>)
    requires |readings| == |plan| && forall i :: 0 <= i < |plan| ==> readings[i] == Some(plan[i])
    ensures Kept(readings) == plan
  {
    if plan != [] {
      var n := |plan| - 1;
      KeptAll(readings[..n], plan[..n]);
      assert plan == plan[..n] + [plan[n]];
    }
  }

  lemma {:induction false} SaidInTurn(lib: Library, plan: seq<Proposal>)
    ensures |SaySteps(lib, plan)| == |plan|
    ensures forall i :: 0 <= i < |plan| ==> SaySteps(lib, plan)[i] == SayStep(lib, plan[i])
  {
    if plan != [] {
      SaidInTurn(lib, plan[..|plan| - 1]);
    }
  }

  lemma ReadSaidSteps(lib: Library, declared: set<string>, plan: seq<Proposal>)
    requires forall p :: p in plan ==> Sayable(lib, declared, p)
    ensures |SaySteps(lib, plan)| == |plan| && ReadSteps(lib, declared, SaySteps(lib, plan)) == plan
  {
    SaidInTurn(lib, plan);
    forall i | 0 <= i < |plan| ensures ReadStep(lib, declared, SaySteps(lib, plan)[i]) == Some(plan[i]) {
      ReadSaidStep(lib, declared, plan[i]);
    }
    KeptAll(Readings(lib, declared, SaySteps(lib, plan)), plan);
  }

  // ----- cleaning keeps what is printed -----

  ghost predicate NoOpenerBefore(s: string, i: nat) {
    forall k :: 0 <= k < i && k < |s| ==> !JsonScanner.IsOpen(s[k])
  }

  ghost predicate NoCloserFrom(s: string, j: nat) {
    forall k :: j <= k < |s| ==> !JsonScanner.IsClose(s[k])
  }

  /** `t` is `s` without some beginning that opens no bracket and some end that closes none. */
  ghost predicate Trims(s: string, t: string) {
    exists i, j :: 0 <= i <= j <= |s| && TrimsAt(s, t, i, j)
  }

  ghost predicate TrimsAt(s: string, t: string, i: nat, j: nat)
    requires i <= j <= |s|
  {
    t == s[i..j] && NoOpenerBefore(s, i) && NoCloserFrom(s, j)
  }

  lemma SliceOfSlice(s: string, i: nat, j: nat, k: nat, l: nat)
    requires i <= j <= |s| && k <= l <= j - i
    ensures s[i..j][k..l] == s[i + k..i + l]
  {
    forall m | 0 <= m < l - k ensures s[i..j][k..l][m] == s[i + k..i + l][m] {
    }
  }

  lemma TrimsTwice(s: string, t: string, u: string)
    requires Trims(s, t) && Trims(t, u)
    ensures Trims(s, u)
  {
    var i, j :| 0 <= i <= j <= |s| && TrimsAt(s, t, i, j);
    var k, l :| 0 <= k <= l <= |t| && TrimsAt(t, u, k, l);
    SliceOfSlice(s, i, j, k, l);
    assert u == s[i + k..i + l];
    forall m | 0 <= m < i + k && m < |s| ensures !JsonScanner.IsOpen(s[m]) {
      assert m >= i ==> s[m] == t[m - i];
    }
    forall m | i + l <= m < |s| ensures !JsonScanner.IsClose(s[m]) {
      assert m < j ==> s[m] == t[m - i];
    }
    assert TrimsAt(s, u, i + k, i + l);
  }

  lemma TrimsFront(s: string, k: nat)
    requires k <= |s| && NoOpenerBefore(s, k)
    ensures Trims(s, s[k..])
  {
    assert TrimsAt(s, s[k..], k, |s|);
  }

  lemma TrimsBack(s: string, k: nat)
    requires k <= |s| && NoCloserFrom(s, k)
    ensures Trims(s, s[..k])
  {
    assert TrimsAt(s, s[..k], 0, k);
  }

  lemma {:induction false} TrimLeftTrims(s: string)
    ensures Trims(s, TrimLeft(s))
  {
    if s != "" && IsSpace(s[0]) {
      TrimsFront(s, 1);
      TrimLeftTrims(s[1..]);
      TrimsTwice(s, s[1..], TrimLeft(s));
    } else {
      TrimsFront(s, 0);
    }
  }

  lemma {:induction false} TrimRightTrims(s: string)
    ensures Trims(s, TrimRight(s))
  {
    if s != "" && IsSpace(s[|s| - 1]) {
      TrimsBack(s, |s| - 1);
      TrimRightTrims(s[..|s| - 1]);
      TrimsTwice(s, s[..|s| - 1], TrimRight(s));
    } else {
      TrimsFront(s, 0);
    }
  }

  lemma {:induction false} DropTagTrims(s: string)
    ensures Trims(s, DropTag(s))
  {
    if s != "" && IsTag(s[0]) {
      TrimsFront(s, 1);
      DropTagTrims(s[1..]);
      TrimsTwice(s, s[1..], DropTag(s));
    } else {
      TrimsFront(s, 0);
    }
  }

  lemma StripTrims(s: string)
    ensures Trims(s, Strip(s))
  {
    TrimLeftTrims(s);
    TrimRightTrims(TrimLeft(s));
    TrimsTwice(s, TrimLeft(s), Strip(s));
  }

  lemma DropOpenFenceTrims(s: string)
    ensures Trims(s, DropOpenFence(s))
  {
    if FENCE <= s {
      assert s[0] == s[1] == s[2] == '`';
      TrimsFront(s, 3);
      DropTagTrims(s[3..]);
      TrimsTwice(s, s[3..], DropTag(s[3..]));
      TrimLeftTrims(DropTag(s[3..]));
      TrimsTwice(s, DropTag(s[3..]), DropOpenFence(s));
    } else {
      TrimsFront(s, 0);
    }
  }

  lemma FenceTrims(t: string)
    requires |t| >= 3 && t[|t| - 3..] == FENCE
    ensures Trims(t, t[..|t| - 3])
    ensures |t| >= 4 && t[|t| - 4] == '\n' ==> Trims(t, t[..|t| - 3][..|t| - 4])
  {
    var n := |t| - 3;
    assert t[n..][0] == '`' && t[n..][1] == '`' && t[n..][2] == '`';
    TrimsBack(t, n);
    if n > 0 && t[n - 1] == '\n' {
      TrimsBack(t, n - 1);
      assert t[..n][..n - 1] == t[..n - 1];
    }
  }

  lemma DropCloseFenceTrims(s: string)
    ensures Trims(s, DropCloseFence(s))
  {
    var t := TrimRight(s);
    if |t| < 3 || t[|t| - 3..] != FENCE {
      TrimsFront(s, 0);
    } else {
      TrimRightTrims(s);
      FenceTrims(t);
      TrimsTwice(s, t, DropCloseFence(s));
    }
  }

  lemma CleanTrims(s: string)
    ensures Trims(s, Clean(s))
  {
    var a := Strip(s);
    var b := DropOpenFence(a);
    var c := DropCloseFence(b);
    StripTrims(s);
    DropOpenFenceTrims(a);
    TrimsTwice(s, a, b);
    DropCloseFenceTrims(b);
    TrimsTwice(s, b, c);
    StripTrims(c);
    TrimsTwice(s, c, Clean(s));
  }

  /** A model that fences its answer, with a language tag or none, is read as if it had not. */
  lemma FencedIsCleaned(tag: string, body: string)
    requires forall c :: c in tag ==> 'a' <= c <= 'z' || 'A' <= c <= 'Z' || '0' <= c <= '9' || c in {'_', '-'}
    requires body != "" && !IsSpace(body[0]) && !IsSpace(body[|body| - 1])
    ensures Clean("```" + tag + "\n" + body + "\n```") == body
  {
    var closed := body + "\n" + FENCE;
    var s := FENCE + tag + "\n" + closed;
    assert s == "```" + tag + "\n" + body + "\n```";
    StripIdle(s);
    OpenFenceDrops(tag, closed);
    CloseFenceDrops(body);
    StripIdle(body);
  }

  lemma StripIdle(s: string)
    requires s != "" && !IsSpace(s[0]) && !IsSpace(s[|s| - 1])
    ensures Strip(s) == s
  {
  }

  lemma OpenFenceDrops(tag: string, rest: string)
    requires forall c :: c in tag ==> IsTag(c)
    requires rest != "" && !IsSpace(rest[0])
    ensures DropOpenFence(FENCE + tag + "\n" + rest) == rest
  {
    var s, line := FENCE + tag + "\n" + rest, "\n" + rest;
    assert s[..3] == FENCE && s[3..] == tag + line;
    TagIsDropped(tag, line);
    assert line[1..] == rest && TrimLeft(rest) == rest;
    assert TrimLeft(line) == TrimLeft(rest);
  }

  lemma CloseFenceDrops(body: string)
    ensures DropCloseFence(body + "\n" + FENCE) == body
  {
    var s := body + "\n" + FENCE;
    assert s[|s| - 1] == '`' && TrimRight(s) == s;
    assert s[|s| - 3..] == FENCE;
    var u := s[..|s| - 3];
    assert u == body + "\n" && u[|u| - 1] == '\n' && u[..|u| - 1] == body;
  }

  lemma {:induction false} TagIsDropped(tag: string, rest: string)
    requires forall c :: c in tag ==> IsTag(c)
    requires rest != "" && rest[0] == '\n'
    ensures DropTag(tag + rest) == rest
  {
    if tag == "" {
      assert tag + rest == rest;
    } else {
      assert (tag + rest)[0] == tag[0] && (tag + rest)[1..] == tag[1..] + rest;
      TagIsDropped(tag[1..], rest);
    }
  }

  lemma ProseSlice(t: string, i: nat, j: nat)
    requires JsonScanner.Prose(t) && i <= j <= |t|
    ensures JsonScanner.Prose(t[i..j])
  {
    forall c | c in t[i..j] ensures c in t {
      var k :| 0 <= k < j - i && t[i..j][k] == c;
      assert t[i + k] == c;
    }
  }

  lemma SliceAround(pre: string, p: string, post: string, i: nat, j: nat)
    requires i <= |pre| && |pre| + |p| <= j <= |pre + p + post|
    ensures (pre + p + post)[i..j] == pre[i..] + p + post[..j - |pre| - |p|]
  {
    var s := pre + p + post;
    assert s[i..j] == s[i..|pre|] + s[|pre|..|pre| + |p|] + s[|pre| + |p|..j];
    assert s[i..|pre|] == pre[i..];
    assert s[|pre|..|pre| + |p|] == p;
    assert s[|pre| + |p|..j] == post[..j - |pre| - |p|];
  }

  /** Trimming prose around a bracketed text leaves the text, in prose. */
  lemma TrimsToProse(pre: string, p: string, post: string, t: string) returns (before: string, after: string)
    requires JsonScanner.Prose(pre) && JsonScanner.Prose(post) && Trims(pre + p + post, t)
    requires p != "" && JsonScanner.IsOpen(p[0]) && JsonScanner.IsClose(p[|p| - 1])
    ensures JsonScanner.Prose(before) && JsonScanner.Prose(after) && t == before + p + after
  {
    var s := pre + p + post;
    var i, j :| 0 <= i <= j <= |s| && TrimsAt(s, t, i, j);
    var q := |pre| + |p|;
    assert s[|pre|] == p[0] && s[q - 1] == p[|p| - 1];
    assert i <= |pre| && q <= j;
    before, after := pre[i..], post[..j - q];
    SliceAround(pre, p, post, i, j);
    ProseSlice(pre, i, |pre|);
    ProseSlice(post, 0, j - q);
  }

  /** Whatever a printed object means to `loads`, extraction from an answer that wraps it in prose gives that
      meaning, fences and white space included, unless `loads` makes something else of the cleaned answer. */
  lemma NoiseIsRemoved(lib: Library, pre: string, v: JsonScanner.Json, post: string, meaning: Json, loaded: Loaded)
    requires JsonScanner.Prose(pre) && JsonScanner.Prose(post) && JsonScanner.Valid(v) && v.Object?
    requires lib.loads(JsonScanner.Print(v)) == Parsed(meaning)
    requires lib.loads(Clean(pre + JsonScanner.Print(v) + post)) in {Malformed, Parsed(meaning)}
    requires Extracts(lib, pre + JsonScanner.Print(v) + post, loaded)
    ensures loaded == Parsed(meaning)
  {
    var p := JsonScanner.Print(v);
    var response := pre + p + post;
    assert JsonScanner.IsOpen(p[0]) && JsonScanner.IsClose(p[|p| - 1]);
    StripTrims(response);
    var b0, a0 := TrimsToProse(pre, p, post, Strip(response));
    CleanTrims(response);
    var before, after := TrimsToProse(pre, p, post, Clean(response));
    if lib.loads(Clean(response)).Malformed? {
      var c :| JsonScanner.IsLargest(Clean(response), c) && loaded == (if c.Some? then lib.loads(c.value) else Malformed);
      JsonScanner.NoiseRecovery(before, v, after, c);
    }
  }

  lemma SaidPlanIsPlan(lib: Library, declared: set<string>, maxPlanSteps: int, plan: seq<Proposal>, fallback: seq<Proposal>)
    requires plan != [] && |plan| <= maxPlanSteps && forall p :: p in plan ==> Sayable(lib, declared, p)
    ensures PlanFrom(lib, declared, maxPlanSteps, Said(Say(lib, plan)), fallback) == plan
  {
    ReadSaidSteps(lib, declared, plan);
    var said := SaySteps(lib, plan);
    assert StepsOf(Say(lib, plan)) == said;
    assert SliceTo(said, maxPlanSteps) == said;
  }

  /** Plan round trip: a model that prints a plan, wrapped in whatever prose and fences, is understood exactly:
      the session gets that plan, and not the fallback. */
  lemma NoisyPlanIsUnderstood(lib: Library, declared: set<string>, maxPlanSteps: int, plan: seq<Proposal>,
                              pre: string, v: JsonScanner.Json, post: string,
                              loaded: Loaded, fallback: seq<Proposal>)
    requires plan != [] && |plan| <= maxPlanSteps && forall p :: p in plan ==> Sayable(lib, declared, p)
    requires JsonScanner.Prose(pre) && JsonScanner.Prose(post) && JsonScanner.Valid(v) && v.Object?
    requires lib.loads(JsonScanner.Print(v)) == Parsed(Say(lib, plan))
    requires lib.loads(Clean(pre + JsonScanner.Print(v) + post)) in {Malformed, Parsed(Say(lib, plan))}
    requires Extracts(lib, pre + JsonScanner.Print(v) + post, loaded)
    ensures PlanFrom(lib, declared, maxPlanSteps, ReplyOf(loaded), fallback) == plan
  {
    NoiseIsRemoved(lib, pre, v, post, Say(lib, plan), loaded);
    SaidPlanIsPlan(lib, declared, maxPlanSteps, plan, fallback);
  }

  // ----- planners stay inside the manifest -----

  /** A step of a known kind that uses nothing but declared capabilities and memory operations. */
  predicate Inside(declared: set<string>, p: Proposal) {
    && !p.kind.Named?
    && (p.kind == UseCapability ==>
          p.capabilityId.Some? && (p.capabilityId.value in declared || IsMemory(p.capabilityId)))
  }

  predicate AllInside(declared: set<string>, plan: seq<Proposal>) {
    forall p :: p in plan ==> Inside(declared, p)
  }

  lemma {:induction false} KeptIsRead(readings: seq<Option<Proposal>>, p: Proposal)
    requires p in Kept(readings)
    ensures Some(p) in readings
  {
    var n := |readings| - 1;
    if readings[n] != Some(p) {
      KeptIsRead(readings[..n], p);
    }
  }

  lemma {:induction false} KeptIsFewer(readings: seq<Option<Proposal>>)
    ensures |Kept(readings)| <= |readings|
  {
    if readings != [] {
      KeptIsFewer(readings[..|readings| - 1]);
    }
  }

  /** Whatever a model answers, the proposals read from it stay inside, and are no more than the steps. */
  lemma ReadStepsInside(lib: Library, declared: set<string>, steps: seq<Json>)
    ensures AllInside(declared, ReadSteps(lib, declared, steps))
    ensures |ReadSteps(lib, declared, steps)| <= |steps|
  {
    var readings := Readings(lib, declared, steps);
    KeptIsFewer(readings);
    forall p | p in Kept(readings) ensures Inside(declared, p) {
      KeptIsRead(readings, p);
      var i :| 0 <= i < |readings| && readings[i] == Some(p);
      ReadStepInside(lib, declared, steps[i]);
    }
  }

  lemma ReadStepInside(lib: Library, declared: set<string>, step: Json)
    ensures ReadStep(lib, declared, step).Some? ==> Inside(declared, ReadStep(lib, declared, step).value)
  {
  }

  lemma CallInside(declared: set<string>, requiresApproval: bool, call: ToolCall)
    ensures Inside(declared, CallProposal(declared, requiresApproval, call))
  {
  }

  lemma SpokenInside(declared: set<string>, text: string, complete: bool)
    ensures AllInside(declared, Spoken(text, complete))
  {
  }

  /** Whatever tools a model calls, the translation stays inside, and there is always a plan. */
  lemma TranslateInside(declared: set<string>, maxPlanSteps: int, r: ToolResponse)
    ensures AllInside(declared, Translate(declared, maxPlanSteps, r)) && Translate(declared, maxPlanSteps, r) != []
  {
    var calls := SliceTo(r.calls, maxPlanSteps);
    var proposals := CallProposals(declared, r.requiresApproval, calls);
    forall p | p in proposals ensures Inside(declared, p) {
      var i :| 0 <= i < |calls| && proposals[i] == p;
      CallInside(declared, r.requiresApproval, calls[i]);
    }
    SpokenInside(declared, r.reasoning, false);
    SpokenInside(declared, r.finalMessage, true);
  }

  /** Each call becomes, in its place, a step for that very capability with its arguments, a request for approval
      exactly when the answer requires it and a use step otherwise; or, when undeclared, a reported gap. */
  lemma CallsInOrder(declared: set<string>, maxPlanSteps: int, r: ToolResponse, i: nat)
    requires i < |SliceTo(r.calls, maxPlanSteps)|
    ensures var call := SliceTo(r.calls, maxPlanSteps)[i]; var k := (if r.reasoning == "" then 0 else 1) + i;
      && k < |Translate(declared, maxPlanSteps, r)|
      && var p := Translate(declared, maxPlanSteps, r)[k];
      if call.name in declared then
        && (p.kind == RequestApproval <==> r.requiresApproval) && (p.kind == UseCapability <==> !r.requiresApproval)
        && p.capabilityId == Some(call.name) && p.payload == call.arguments
        && p.description == "Execute capability " + call.name + "."
      else
        && p.kind == ReportGap && p.capabilityId == None
        && p.description == "Planner proposed undeclared capability " + call.name + "."
        && p.payload == map["requestedCapability" := Text(call.name)]
  {
    var first := Spoken(r.reasoning, false);
    var calls := SliceTo(r.calls, maxPlanSteps);
    var proposals := CallProposals(declared, r.requiresApproval, calls);
    assert proposals[i] == CallProposal(declared, r.requiresApproval, calls[i]);
    assert (first + proposals + Spoken(r.finalMessage, true))[|first| + i] == proposals[i];
  }

  /** Besides the calls, the plan says the reasoning first, which never completes the session, and the final message
      last, which always does; an answer with none of the three is reported as a gap. */
  lemma SpokenSteps(declared: set<string>, maxPlanSteps: int, r: ToolResponse)
    ensures var plan := Translate(declared, maxPlanSteps, r); var n := |SliceTo(r.calls, maxPlanSteps)|;
      && (r.reasoning != "" ==>
            plan[0].kind == Reason && plan[0].description == r.reasoning
            && !Truthy(Get(plan[0].payload, "mark_complete")) && !Truthy(Get(plan[0].payload, "requires_replan")))
      && (r.finalMessage != "" ==>
            var p := plan[|plan| - 1];
            p.kind == Reason && p.description == r.finalMessage && Truthy(Get(p.payload, "mark_complete")))
      && (if r.reasoning == "" && n == 0 && r.finalMessage == "" then |plan| == 1 && plan[0].kind == ReportGap
          else |plan| == (if r.reasoning == "" then 0 else 1) + n + (if r.finalMessage == "" then 0 else 1))
  {
  }

  /** A called capability is actionable, declared or not, except one undeclared whose name itself quotes the note of
      the empty plan. */
  lemma CallIsActionable(declared: set<string>, requiresApproval: bool, call: ToolCall)
    ensures Actionable(CallProposal(declared, requiresApproval, call)) <==>
            call.name in declared || !Contains(call.name, NO_PLAN)
  {
    var d := UNDECLARED + call.name + ".";
    forall i | 0 <= i <= |d| ensures NO_PLAN <= d[i..] <==> QuotesAt(call.name, i - |UNDECLARED|) {
      NoteInside(call.name, i);
    }
    if Contains(call.name, NO_PLAN) {
      var j :| 0 <= j <= |call.name| && NO_PLAN <= call.name[j..];
      assert QuotesAt(call.name, |UNDECLARED| + j - |UNDECLARED|);
      assert NO_PLAN <= d[|UNDECLARED| + j..];
    }
    if Contains(d, NO_PLAN) {
      var i :| 0 <= i <= |d| && NO_PLAN <= d[i..];
      assert QuotesAt(call.name, i - |UNDECLARED|);
    }
  }

  predicate QuotesAt(name: string, j: int) {
    0 <= j <= |name| && NO_PLAN <= name[j..]
  }

  /** The note can only stand inside the name: its first letter and its ninth tell it from the words in front, and it
      holds no full stop. */
  lemma NoteInside(name: string, i: nat)
    requires i <= |UNDECLARED + name + "."|
    ensures NO_PLAN <= (UNDECLARED + name + ".")[i..] <==> QuotesAt(name, i - |UNDECLARED|)
  {
    var d := UNDECLARED + name + ".";
    var n, j := |NO_PLAN|, i - |UNDECLARED|;
    SameAt(d, NO_PLAN, i);
    NoteLetters();
    if j < 0 {
      assert d[i] == UNDECLARED[i] && d[8] == UNDECLARED[8];
    } else if j <= |name| {
      SameAt(name, NO_PLAN, j);
      forall m | 0 <= m < |name| ensures d[|UNDECLARED| + m] == name[m] {}
      if |name| < j + n <= |name| + 1 {
        assert d[i + (n - 1)] == '.';
      }
    }
  }

  lemma SameAt(d: string, w: string, i: nat)
    requires i <= |d|
    ensures w <= d[i..] <==> i + |w| <= |d| && forall k :: 0 <= k < |w| ==> d[i + k] == w[k]
  {
    if i + |w| <= |d| {
      forall k | 0 <= k < |w| ensures d[i..][k] == d[i + k] {}
      if forall k :: 0 <= k < |w| ==> d[i + k] == w[k] {
        assert d[i..][..|w|] == w;
      }
      if w <= d[i..] {
        forall k | 0 <= k < |w| ensures d[i + k] == w[k] {
          assert d[i..][k] == w[k];
        }
      }
    }
  }

  lemma NoteLetters()
    ensures |NO_PLAN| == 32 && NO_PLAN[0] == 'P' && NO_PLAN[8] == 'r' && '.' !in NO_PLAN
    ensures |UNDECLARED| == 39 && UNDECLARED[8] == 'p'
    ensures forall i :: 1 <= i < |UNDECLARED| ==> UNDECLARED[i] != 'P'
  {
  }

  lemma NoPlanIsNotActionable(declared: set<string>, maxPlanSteps: int, r: ToolResponse)
    requires r.reasoning == "" && r.finalMessage == "" && SliceTo(r.calls, maxPlanSteps) == []
    ensures forall p :: p in Translate(declared, maxPlanSteps, r) ==> !Actionable(p)
  {
    var d := NO_PLAN + " any actionable plan elements.";
    assert d[0..] == d && NO_PLAN <= d;
  }

  /** The answer says something, or calls a capability that is declared or does not quote the note of the empty plan. */
  ghost predicate HasPlan(declared: set<string>, maxPlanSteps: int, r: ToolResponse) {
    var calls := SliceTo(r.calls, maxPlanSteps);
    r.reasoning != "" || r.finalMessage != ""
    || exists i :: 0 <= i < |calls| && (calls[i].name in declared || !Contains(calls[i].name, NO_PLAN))
  }

  /** The plan made of tool calls stands, rather than the fallback, exactly when the answer has a plan. */
  lemma ToolPlanIsKept(lib: Library, declared: set<string>, maxPlanSteps: int, r: ToolResponse, fallback: seq<Proposal>)
    ensures PlanFrom(lib, declared, maxPlanSteps, Called(r), fallback) ==
            if HasPlan(declared, maxPlanSteps, r) then Translate(declared, maxPlanSteps, r) else fallback
  {
    if HasPlan(declared, maxPlanSteps, r) {
      var p := PlannedIsActionable(declared, maxPlanSteps, r);
    } else {
      UnplannedIsNotActionable(declared, maxPlanSteps, r);
    }
  }

  lemma PlannedIsActionable(declared: set<string>, maxPlanSteps: int, r: ToolResponse) returns (p: Proposal)
    requires HasPlan(declared, maxPlanSteps, r)
    ensures p in Translate(declared, maxPlanSteps, r) && Actionable(p)
  {
    var calls, plan := SliceTo(r.calls, maxPlanSteps), Translate(declared, maxPlanSteps, r);
    if r.reasoning != "" {
      p := plan[0];
    } else if r.finalMessage != "" {
      p := plan[|plan| - 1];
    } else {
      var i :| 0 <= i < |calls| && (calls[i].name in declared || !Contains(calls[i].name, NO_PLAN));
      p := plan[i];
      assert p == CallProposal(declared, r.requiresApproval, calls[i]);
      CallIsActionable(declared, r.requiresApproval, calls[i]);
    }
  }

  lemma UnplannedIsNotActionable(declared: set<string>, maxPlanSteps: int, r: ToolResponse)
    requires !HasPlan(declared, maxPlanSteps, r)
    ensures forall p :: p in Translate(declared, maxPlanSteps, r) ==> !Actionable(p)
  {
    var calls, plan := SliceTo(r.calls, maxPlanSteps), Translate(declared, maxPlanSteps, r);
    if calls == [] {
      NoPlanIsNotActionable(declared, maxPlanSteps, r);
    } else {
      forall p | p in plan ensures !Actionable(p) {
        var i :| 0 <= i < |plan| && plan[i] == p;
        assert p == CallProposal(declared, r.requiresApproval, calls[i]);
        CallIsActionable(declared, r.requiresApproval, calls[i]);
      }
    }
  }

  /** No step of an answer that requires approval uses a capability. */
  lemma ApprovalPlanUsesNothing(declared: set<string>, maxPlanSteps: int, r: ToolResponse, p: Proposal)
    requires r.requiresApproval && p in Translate(declared, maxPlanSteps, r)
    ensures !Means(p.kind, UseCapability)
  {
    var calls := SliceTo(r.calls, maxPlanSteps);
    var proposals := CallProposals(declared, r.requiresApproval, calls);
    if p in proposals {
      var i :| 0 <= i < |calls| && proposals[i] == p;
      assert p == CallProposal(declared, true, calls[i]);
    }
  }

  /** Over every run: no entry for a step of an answer that requires approval ever has a result or a verdict. */
  lemma ApprovalPlanExecutesNothing(cfg: Config, initial: WorkingSet, s: Session, k: nat, declared: set<string>,
                                    maxPlanSteps: int, r: ToolResponse)
    requires Good(cfg, initial, s) && k < |s.ledger| && r.requiresApproval
    requires s.ledger[k].proposal in Translate(declared, maxPlanSteps, r)
    ensures s.ledger[k].result == None && s.ledger[k].decision == None
  {
    ApprovalPlanUsesNothing(declared, maxPlanSteps, r, s.ledger[k].proposal);
    assert EntryTruthful(cfg, s.ledger[k]);
  }

  lemma FirstCallIs(declared: set<string>, maxPlanSteps: int, r: ToolResponse)
    requires SliceTo(r.calls, maxPlanSteps) != [] && r.requiresApproval
    ensures var plan := Translate(declared, maxPlanSteps, r); var call := SliceTo(r.calls, maxPlanSteps)[0];
      && (r.reasoning == "" ==> plan != [] && plan[0] == CallProposal(declared, true, call))
      && (r.reasoning != "" ==>
            |plan| >= 2 && plan[0] == Spoken(r.reasoning, false)[0] && plan[1] == CallProposal(declared, true, call))
  {
    var calls := SliceTo(r.calls, maxPlanSteps);
    assert CallProposals(declared, true, calls)[0] == CallProposal(declared, true, calls[0]);
  }

  /** A call that needs approval at the head of the queue holds the session: with a request for that very
      capability when it is declared, and on a reported gap when it is not. */
  lemma CallHolds(cfg: Config, o: Oracles, s: Session, maxSteps: int, declared: set<string>, call: ToolCall)
    requires Ready(s) && s.planQueue[0] == CallProposal(declared, true, call) && s.counter < maxSteps
    ensures var u := Run(cfg, o, s, maxSteps);
      && u.status == Hold && |u.ledger| == |s.ledger| + 1 && u.workingSet == s.workingSet
      && u.ledger[|s.ledger|].result == None
      && (call.name in declared ==>
            |u.pending| == 1 && u.pending[0].proposal.capabilityId == Some(call.name)
            && u.pending[0].reasonIds == [Policy.ApprovalRequired])
      && (call.name !in declared ==> u.pending == [] && u.state.reportedGap.Some?)
  {
    var t := Prepare(o, s);
    assert t == s.(state := s.state.(memoryContext := o.context(s)));
    var u := TakeStep(cfg, o, t);
    if call.name in declared {
      RuntimeExits.AskStepHolds(cfg, o, t);
    } else {
      RuntimeExits.GapStepHolds(cfg, o, t);
    }
    assert Run(cfg, o, u, maxSteps) == u;
  }

  /** The first call of an answer that requires approval holds the session before anything is executed: a run that
      takes up the plan makes at most one note first. */
  lemma ApprovalAnswerHolds(cfg: Config, o: Oracles, s: Session, maxSteps: int, declared: set<string>, maxPlanSteps: int,
                            r: ToolResponse)
    requires Ready(s) && s.planQueue == Translate(declared, maxPlanSteps, r) && r.requiresApproval
    requires SliceTo(r.calls, maxPlanSteps) != [] && s.counter + 1 < maxSteps
    ensures var u := Run(cfg, o, s, maxSteps); var call := SliceTo(r.calls, maxPlanSteps)[0];
      && u.status == Hold && |u.ledger| <= |s.ledger| + 2 && u.workingSet == s.workingSet
      && (call.name in declared ==>
            |u.pending| == 1 && u.pending[0].proposal.capabilityId == Some(call.name)
            && u.pending[0].reasonIds == [Policy.ApprovalRequired])
      && (call.name !in declared ==> u.pending == [] && u.state.reportedGap.Some?)
  {
    FirstCallIs(declared, maxPlanSteps, r);
    SpokenSteps(declared, maxPlanSteps, r);
    var call := SliceTo(r.calls, maxPlanSteps)[0];
    if r.reasoning == "" {
      CallHolds(cfg, o, s, maxSteps, declared, call);
    } else {
      var t := Prepare(o, s);
      assert t == s.(state := s.state.(memoryContext := o.context(s)));
      RuntimeExits.ReasonStepNotes(cfg, o, t);
      var u := TakeStep(cfg, o, t);
      assert u.planQueue[0] == CallProposal(declared, true, call);
      CallHolds(cfg, o, u, maxSteps, declared, call);
    }
  }

  // ----- what is read from a step, written out -----

  /** A step object that names a kind and says something. */
  ghost predicate Speaks(step: Json, kind: string, said: string) {
    && step.JObject? && "kind" in step.fields && step.fields["kind"] == JText(kind)
    && "description" in step.fields && step.fields["description"].JText?
    && said == Strip(step.fields["description"].s) && said != ""
  }

  /** The capability is given in camel case, or else in snake case. */
  ghost predicate NamesCapability(step: Json, id: string) {
    && step.JObject? && id != ""
    && (("capabilityId" in step.fields && step.fields["capabilityId"] == JText(id))
        || (("capabilityId" !in step.fields || step.fields["capabilityId"] in {JNull, JText("")})
            && "capability_id" in step.fields && step.fields["capability_id"] == JText(id)))
  }

  lemma NamedCapability(step: Json, id: string)
    requires NamesCapability(step, id)
    ensures CapabilityOf(step.fields) == JText(id)
  {
    assert |"capabilityId"| == 12 && |"capability_id"| == 13;
  }

  /** The identifier read is the camel-case one, unless it is missing or one of the six falsy values. */
  lemma CamelCaseIsPreferred(fields: map<string, Json>)
    ensures var camel := Field(fields, "capabilityId");
      CapabilityOf(fields) ==
      if camel in {JNull, JBool(false), JNumber(0.0), JText(""), JList([]), JObject(map[])} then Field(fields, "capability_id")
      else camel
  {
  }

  /** A use or approval step for a declared capability is read as it is; one for an undeclared capability is
      reported as a gap that names it; one that names none is skipped. */
  lemma CapabilityStepIsRead(lib: Library, declared: set<string>, step: Json, kind: string, said: string, id: string)
    requires Speaks(step, kind, said) && (kind == "use-capability" || kind == "request-approval")
    requires NamesCapability(step, id)
    ensures var p := ReadStep(lib, declared, step);
      && p.Some?
      && (id in declared ==>
            && p.value.kind == (if kind == "use-capability" then UseCapability else RequestApproval)
            && p.value.capabilityId == Some(id) && p.value.description == said)
      && (id !in declared ==>
            p.value.kind == ReportGap && p.value.capabilityId == None
            && p.value.description == "Planner proposed undeclared capability " + id + "."
            && p.value.payload == map["requestedCapability" := Text(id)])
  {
    NamedCapability(step, id);
    NamesRoundTrip(UseCapability, Proposed, Running);
    NamesRoundTrip(RequestApproval, Proposed, Running);
    assert KindName(UseCapability).value == "use-capability" && KindName(RequestApproval).value == "request-approval";
  }

  /** Nothing is read from a step that is not an object, has no kind of the enumeration, or says nothing. */
  lemma MuteStepIsSkipped(lib: Library, declared: set<string>, step: Json)
    requires !step.JObject?
          || "kind" !in step.fields || !step.fields["kind"].JText?
          || step.fields["kind"].s !in {"reason", "use-capability", "request-approval", "replan", "report-gap"}
          || "description" !in step.fields || !step.fields["description"].JText?
          || Strip(step.fields["description"].s) == ""
    ensures ReadStep(lib, declared, step) == None
  {
  }

  /** The answer's steps are the list under `steps`, or the answer itself when it is a list, cut at the limit. */
  lemma StepsAreCut(items: seq<Json>, n: int)
    ensures StepsOf(JList(items)) == items && StepsOf(JObject(map["steps" := JList(items)])) == items
    ensures n >= 0 ==> SliceTo(items, n) == items[..if n < |items| then n else |items|]
    ensures n < 0 ==> SliceTo(items, n) == items[..if |items| + n > 0 then |items| + n else 0]
  {
  }

  lemma WellPlannedInside(declared: set<string>, hasMemory: bool, s: Session, plan: seq<Proposal>)
    requires Heuristic.WellPlanned(declared, hasMemory, s, plan)
    requires IsMemory(Some(Heuristic.MEMORY_READ))
    ensures AllInside(declared, plan)
  {
  }

  lemma HeuristicInside(declared: set<string>, hasMemory: bool, environment: string, s: Session)
    ensures AllInside(declared, Heuristic.ProposePlan(declared, hasMemory, environment, s))
  {
    assert IsMemory(Some(Heuristic.MEMORY_READ));
    var plan := Heuristic.ProposePlan(declared, hasMemory, environment, s);
    if !s.state.goalSatisfied {
      Heuristic.PlanIsWell(declared, hasMemory, environment, s);
      WellPlannedInside(declared, hasMemory, s, plan);
    }
  }

  /** The planner of the oracles is prompt-driven: for each session there is some reply, in either mode, or
      none, and the heuristic plan to fall back on. */
  ghost predicate PromptDriven(lib: Library, declared: set<string>, maxPlanSteps: int, hasMemory: bool,
                               environment: string, o: Oracles) {
    forall s :: exists reply ::
      o.plan(s) == PlanFrom(lib, declared, maxPlanSteps, reply, Heuristic.ProposePlan(declared, hasMemory, environment, s))
  }

  ghost predicate PlansInside(declared: set<string>, o: Oracles) {
    forall s :: AllInside(declared, o.plan(s))
  }

  lemma PromptDrivenInside(lib: Library, declared: set<string>, maxPlanSteps: int, hasMemory: bool,
                           environment: string, o: Oracles)
    requires PromptDriven(lib, declared, maxPlanSteps, hasMemory, environment, o)
    ensures PlansInside(declared, o)
  {
    forall s ensures AllInside(declared, o.plan(s)) {
      var fallback := Heuristic.ProposePlan(declared, hasMemory, environment, s);
      var reply :| o.plan(s) == PlanFrom(lib, declared, maxPlanSteps, reply, fallback);
      HeuristicInside(declared, hasMemory, environment, s);
      match reply
      case Unusable =>
      case Said(v) => ReadStepsInside(lib, declared, SliceTo(StepsOf(v), maxPlanSteps));
      case Called(response) => TranslateInside(declared, maxPlanSteps, response);
    }
  }

  // ----- a whole session under such a planner -----

  predicate EntryInside(declared: set<string>, e: Entry) {
    Inside(declared, e.proposal) && !e.message.NotDeclared? && !e.message.UnsupportedKind?
  }

  ghost predicate SessionInside(declared: set<string>, s: Session) {
    && AllInside(declared, s.planQueue)
    && (forall a :: a in s.pending ==> Inside(declared, a.proposal))
    && (forall e :: e in s.ledger ==> EntryInside(declared, e))
  }

  /** What a step leaves behind: a shorter or empty queue, at most one more request, and one more entry,
      both about the proposal it took. */
  ghost predicate StepLeaves(s: Session, t: Session)
    requires s.planQueue != []
  {
    && (t.planQueue == s.planQueue[1..] || t.planQueue == [])
    && (t.pending == s.pending
        || (|t.pending| == |s.pending| + 1 && t.pending == s.pending + [t.pending[|s.pending|]]
            && t.pending[|s.pending|].proposal == s.planQueue[0]))
    && |t.ledger| == |s.ledger| + 1 && t.ledger == s.ledger + [t.ledger[|s.ledger|]]
    && t.ledger[|s.ledger|].proposal == s.planQueue[0]
    && t.counter == s.counter + 1
  }

  /** Only a proposal that is not inside can fail for its kind or its capability. */
  ghost predicate Blames(cfg: Config, p: Proposal, m: Message) {
    && (m.UnsupportedKind? ==> p.kind.Named?)
    && (m.NotDeclared? ==> Means(p.kind, UseCapability) && CapabilityFor(cfg, p.capabilityId).None?)
  }

  ghost predicate StepShaped(cfg: Config, s: Session, t: Session)
    requires s.planQueue != []
  {
    StepLeaves(s, t) && Blames(cfg, s.planQueue[0], t.ledger[|s.ledger|].message)
  }

  lemma RefuseShape(cfg: Config, o: Oracles, s: Session, d: Policy.Decision)
    requires s.planQueue != []
    ensures StepShaped(cfg, s, RefuseStep(o, Popped(s), Opened(s).(decision := Some(d)), d))
  {
  }

  lemma FinishShape(cfg: Config, s: Session, d: Policy.Decision, r: ExecutionResult)
    requires s.planQueue != []
    ensures StepShaped(cfg, s, FinishStep(cfg, Popped(s), Opened(s).(decision := Some(d), result := Some(r)), r))
  {
  }

  lemma UseShape(cfg: Config, o: Oracles, s: Session)
    requires s.planQueue != [] && Means(s.planQueue[0].kind, UseCapability)
    ensures StepShaped(cfg, s, UseStep(cfg, o, Popped(s), Opened(s)))
  {
    var t, p := Popped(s), s.planQueue[0];
    var capability := CapabilityFor(cfg, p.capabilityId);
    if capability.Some? && !o.halted(t) {
      var d := cfg.judge(s.gate, capability.value, p.payload);
      if d.disposition != Policy.Allow {
        RefuseShape(cfg, o, s, d);
      } else {
        FinishShape(cfg, s, d, if IsMemory(p.capabilityId) then ExecuteMemory(o, t, p) else o.execute(t, p, capability.value));
      }
    }
  }

  lemma ReasonShape(cfg: Config, s: Session)
    requires s.planQueue != []
    ensures StepShaped(cfg, s, ReasonStep(Popped(s), Opened(s)))
  {
  }

  lemma StepShape(cfg: Config, o: Oracles, s: Session)
    requires s.planQueue != []
    ensures StepShaped(cfg, s, TakeStep(cfg, o, s))
  {
    match Meant(s.planQueue[0].kind)
    case Some(Reason) => ReasonShape(cfg, s);
    case Some(UseCapability) => UseShape(cfg, o, s);
    case _ =>
  }

  lemma StepInside(cfg: Config, o: Oracles, s: Session)
    requires SessionInside(Heuristic.DeclaredIds(cfg.capabilities), s) && s.planQueue != []
    ensures SessionInside(Heuristic.DeclaredIds(cfg.capabilities), TakeStep(cfg, o, s))
  {
    var declared, p := Heuristic.DeclaredIds(cfg.capabilities), s.planQueue[0];
    assert Inside(declared, p);
    StepShape(cfg, o, s);
    if p.kind == UseCapability && p.capabilityId.value in declared {
      Heuristic.DeclaredResolves(cfg.capabilities, p.capabilityId.value);
    }
  }

  lemma {:induction false} RunInside(cfg: Config, o: Oracles, s: Session, maxSteps: int)
    requires PlansInside(Heuristic.DeclaredIds(cfg.capabilities), o)
    requires SessionInside(Heuristic.DeclaredIds(cfg.capabilities), s)
    ensures SessionInside(Heuristic.DeclaredIds(cfg.capabilities), Run(cfg, o, s, maxSteps))
    decreases maxSteps - s.counter
  {
    if s.status == Running && s.counter < maxSteps {
      var t := Prepare(o, s);
      if t.planQueue != [] {
        assert SessionInside(Heuristic.DeclaredIds(cfg.capabilities), t);
        StepInside(cfg, o, t);
        StepShape(cfg, o, t);
        RunInside(cfg, o, TakeStep(cfg, o, t), maxSteps);
      }
    }
  }

  lemma {:induction false} FoundIsPending(pending: seq<PendingApproval>, request: Option<nat>)
    ensures FindRequest(pending, request).Some? ==> FindRequest(pending, request).value in pending
  {
    if pending != [] {
      FoundIsPending(pending[1..], request);
    }
  }

  lemma {:induction false} KeptIsPending(pending: seq<PendingApproval>, id: nat, a: PendingApproval)
    requires a in WithoutRequest(pending, id)
    ensures a in pending
  {
    if a != pending[0] {
      KeptIsPending(pending[1..], id, a);
    }
  }

  lemma ApproveInside(declared: set<string>, s: Session, token: string, request: Option<nat>)
    requires SessionInside(declared, s)
    ensures SessionInside(declared, Approve(s, token, request).0)
  {
    FoundIsPending(s.pending, request);
    if FindRequest(s.pending, request).Some? {
      var id := FindRequest(s.pending, request).value.requestId;
      forall a | a in WithoutRequest(s.pending, id) ensures Inside(declared, a.proposal) {
        KeptIsPending(s.pending, id, a);
      }
    }
  }

  lemma ExportableInside(declared: set<string>, s: Session)
    requires SessionInside(declared, s)
    ensures Exportable(s)
  {
    forall k | 0 <= k < |s.ledger| ensures !s.ledger[k].proposal.kind.Named? {
      assert s.ledger[k] in s.ledger;
    }
    forall k | 0 <= k < |s.pending| ensures !s.pending[k].proposal.kind.Named? {
      assert s.pending[k] in s.pending;
    }
  }

  /** Every run of the sequence plans inside the manifest. */
  ghost predicate OpsPlanInside(declared: set<string>, ops: seq<Op>) {
    forall op :: op in ops && op.DoRun? ==> PlansInside(declared, op.oracles)
  }

  lemma ReplayInside(cfg: Config, declared: set<string>, s: Session, gate: nat)
    requires SessionInside(declared, s) && s.counter == |s.ledger|
    ensures Export(s).Some? && Hydrate(Export(s).value, gate) == Some(s.(planQueue := [], gate := gate))
    ensures SessionInside(declared, Apply(cfg, s, DoReplay(gate)))
  {
    ExportableInside(declared, s);
    ReplayRoundTrip(s, gate);
  }

  lemma ApplyInside(cfg: Config, s: Session, op: Op)
    requires op.DoRun? ==> PlansInside(Heuristic.DeclaredIds(cfg.capabilities), op.oracles)
    requires SessionInside(Heuristic.DeclaredIds(cfg.capabilities), s) && s.counter == |s.ledger|
    ensures SessionInside(Heuristic.DeclaredIds(cfg.capabilities), Apply(cfg, s, op))
  {
    var declared := Heuristic.DeclaredIds(cfg.capabilities);
    match op
    case DoRun(o, maxSteps) => RunInside(cfg, o, s, maxSteps);
    case DoApprove(token, request) => ApproveInside(declared, s, token, request);
    case DoClearGap =>
    case DoAbsorb =>
    case DoReplay(gate) => ReplayInside(cfg, declared, s, gate);
  }

  lemma {:induction false} ReachableInside(cfg: Config, gate: nat, inputs: Payload, initial: WorkingSet, ops: seq<Op>)
    requires OpsPlanInside(Heuristic.DeclaredIds(cfg.capabilities), ops)
    ensures SessionInside(Heuristic.DeclaredIds(cfg.capabilities), ApplyAll(cfg, Fresh(gate, inputs, initial), ops))
  {
    if ops != [] {
      var front, op := ops[..|ops| - 1], ops[|ops| - 1];
      assert op in ops && forall other :: other in front ==> other in ops;
      ReachableInside(cfg, gate, inputs, initial, front);
      ReachableIsGood(cfg, gate, inputs, initial, front);
      ApplyInside(cfg, ApplyAll(cfg, Fresh(gate, inputs, initial), front), op);
    }
  }

  /** Stays inside the manifest: over any sequence of runs, approvals, cleared gaps, absorbed ticks and replays,
      with any model, router and gates, no step ever fails for an undeclared capability or an unsupported
      kind, and the session can always be exported, and hydrated under any gate without loss but for its
      plan queue. */
  lemma NeverUndeclared(cfg: Config, gate: nat, inputs: Payload, initial: WorkingSet, ops: seq<Op>, other: nat)
    requires OpsPlanInside(Heuristic.DeclaredIds(cfg.capabilities), ops)
    ensures var s := ApplyAll(cfg, Fresh(gate, inputs, initial), ops);
      && (forall e :: e in s.ledger ==> !e.message.NotDeclared? && !e.message.UnsupportedKind?)
      && Export(s).Some? && Hydrate(Export(s).value, other) == Some(s.(planQueue := [], gate := other))
  {
    ReachableInside(cfg, gate, inputs, initial, ops);
    ReachableIsGood(cfg, gate, inputs, initial, ops);
    ReplayInside(cfg, Heuristic.DeclaredIds(cfg.capabilities), ApplyAll(cfg, Fresh(gate, inputs, initial), ops), other);
  }
}
