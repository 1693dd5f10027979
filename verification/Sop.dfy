/** Validation, comparison and registration of SOP definitions (internal/task/sop.go, internal/store/pgstore/sop.go). */
module Sop {
  import opened Common
  import opened Strings
  import opened SopSteps
  import opened SopGraph

  datatype Definition = Definition(sopId: string, name: string, description: string, steps: seq<Step>)

  datatype Problem =
    | NoSteps | TooManySteps | TextTooLong | BadId | DuplicateId | DefaultIdTaken
    | BadStep | SelfDependency | UnknownDependency | CyclicDependencies

  datatype Result<+T, +E> = Ok(value: T) | Err(error: E)

  const MAX_STEPS := 50
  const MAX_STEP_ATTEMPTS := 20
  const MAX_TEXT := 8000
  const MAX_SUBJECT := 200
  const MAX_NAME := 200

  // ---- the three patterns of the source, as predicates ----

  predicate AlphaNum(c: char) {
    'A' <= c <= 'Z' || 'a' <= c <= 'z' || '0' <= c <= '9'
  }

  predicate IdText(s: string) {
    s != [] && AlphaNum(s[0]) && forall c | c in s :: AlphaNum(c) || c in "_.-"
  }

  predicate PositiveNumeral(s: string) {
    s != [] && '1' <= s[0] <= '9' && forall c | c in s :: '0' <= c <= '9'
  }

  predicate IsStepId(s: string) {
    IdText(s) && |s| <= 64
  }

  predicate IsVersionedId(s: string) {
    exists at | 0 <= at < |s| :: s[at] == '@' && IdText(s[..at]) && PositiveNumeral(s[at + 1..])
  }

  predicate IsSchemaRef(s: string) {
    && "schema://" <= s
    && exists at | 9 < at < |s| ::
         s[at] == '/' && PositiveNumeral(s[at + 1..]) && forall c | c in s[9..at] :: c !in "\t\n\U{0C}\r "
  }

  // ---- one step ----

  /** `validateSOPStep`. */
  predicate StepFits(step: Step) {
    && step.subject != "" && ByteLen(step.subject) <= MAX_SUBJECT
    && ByteLen(step.description) <= MAX_TEXT
    && 1 <= step.maxAttempts <= MAX_STEP_ATTEMPTS
    && (step.executor != "" ==> IsVersionedId(step.executor))
    && (step.verifier.Some? ==>
          && ByteLen(step.verifier.value.instructions) <= MAX_TEXT
          && (step.verifier.value.expert != "" ==> IsVersionedId(step.verifier.value.expert)))
    && (step.outputSchemaRef != "" ==> IsSchemaRef(step.outputSchemaRef))
    && (forall a | a in step.artifacts :: a.name != "" && a.mediaType != "" && a.minCount >= 1)
    && step.humanApproval in {"", "before", "after"}
  }

  // ---- a whole definition ----

  function NormalName(sop: Definition): string {
    if Trim(sop.name) == "" then sop.sopId else Trim(sop.name)
  }

  /** The form in which an accepted definition is stored. */
  function Validated(sop: Definition): Definition {
    sop.(name := NormalName(sop), steps := Normal(sop.steps))
  }

  /** Everything an SOP must be; the last clause is about the graph, not about an algorithm. */
  ghost predicate Acceptable(sop: Definition) {
    && 1 <= |sop.steps| <= MAX_STEPS
    && ByteLen(NormalName(sop)) <= MAX_NAME && ByteLen(sop.description) <= MAX_TEXT
    && (forall step | step in sop.steps && step.id != "" :: IsStepId(step.id))
    && WrittenIdsFit(sop.steps)
    && StepsFit(Normal(sop.steps))
    && !HasCycle(Normal(sop.steps))
  }

  ghost predicate StepsFit(steps: seq<Step>) {
    forall i | 0 <= i < |steps| :: StepAndDepsFit(steps, i)
  }

  /** What is wrong with a written id: it is no step id, or an earlier step has it. */
  predicate IdProblemAt(steps: seq<Step>, i: nat, problem: Problem)
    requires i < |steps|
  {
    && steps[i].id != ""
    && match problem
       case BadId => !IsStepId(steps[i].id)
       case DuplicateId => IsStepId(steps[i].id) && exists k | 0 <= k < i :: steps[k].id == steps[i].id
       case _ => false
  }

  predicate IdsFitUntil(steps: seq<Step>, n: nat)
    requires n <= |steps|
  {
    forall k | 0 <= k < n :: !IdProblemAt(steps, k, BadId) && !IdProblemAt(steps, k, DuplicateId)
  }

  /** A step without an id would get one that another step was given. */
  predicate TakesDefaultId(steps: seq<Step>) {
    exists i, j | 0 <= i < |steps| && 0 <= j < |steps| :: steps[i].id == "" && steps[j].id == "s" + Decimal(i + 1)
  }

  method CheckWrittenIds(steps: seq<Step>) returns (problem: Option<Problem>)
    ensures problem.None? <==> WrittenIdsFit(steps) && forall step | step in steps && step.id != "" :: IsStepId(step.id)
    ensures problem == Some(BadId) || problem == Some(DuplicateId) ==>
              FirstIdProblem(steps, problem.value)
    ensures problem == Some(DefaultIdTaken) ==> IdsFitUntil(steps, |steps|) && TakesDefaultId(steps)
    ensures problem.Some? ==> problem.value in {BadId, DuplicateId, DefaultIdTaken}
  {
    var written: set<string> := {};
    for i := 0 to |steps|
      invariant forall x :: x in written <==> x != "" && exists k | 0 <= k < i :: steps[k].id == x
      invariant forall k | 0 <= k < i && steps[k].id != "" :: IsStepId(steps[k].id)
      invariant forall j, k | 0 <= j < k < i && steps[j].id != "" :: steps[j].id != steps[k].id
    {
      var id := steps[i].id;
      if id != "" {
        if !IsStepId(id) {
          assert steps[i] in steps && IdProblemAt(steps, i, BadId);
          return Some(BadId);
        }
        if id in written {
          assert IdProblemAt(steps, i, DuplicateId);
          return Some(DuplicateId);
        }
        written := written + {id};
      }
    }
    for i := 0 to |steps|
      invariant forall k, j | 0 <= k < i && 0 <= j < |steps| && steps[k].id == "" :: steps[j].id != DefaultId(k + 1)
    {
      if steps[i].id == "" && DefaultId(i + 1) in written {
        return Some(DefaultIdTaken);
      }
    }
    return None;
  }

  /** The positions of the normal ids. No id is met twice: the branch that would refuse one is dead. */
  method IndexIds(steps: seq<Step>) returns (ids: map<string, int>)
    requires UniqueIds(steps)
    ensures forall x :: x in ids <==> x in Ids(steps)
  {
    ids := map[];
    for index := 0 to |steps|
      invariant forall x :: x in ids <==> x in Ids(steps)[..index]
    {
      assert steps[index].id !in Ids(steps)[..index];
      if steps[index].id in ids {
        assert false;
      }
      ids := ids[steps[index].id := index + 1];
      assert Ids(steps)[..index + 1] == Ids(steps)[..index] + [steps[index].id];
    }
    assert Ids(steps)[..|steps|] == Ids(steps);
  }

  predicate DepsFit(step: Step, known: seq<string>) {
    forall d | d in Deps(step) :: d != step.id && d in known
  }

  /** The first dependency that is the step itself, or no step. */
  predicate DependencyProblem(step: Step, known: seq<string>, problem: Problem) {
    var deps := Deps(step);
    exists j | 0 <= j < |deps| ::
      && (forall k | 0 <= k < j :: deps[k] != step.id && deps[k] in known)
      && match problem
         case SelfDependency => deps[j] == step.id
         case UnknownDependency => deps[j] != step.id && deps[j] !in known
         case _ => false
  }

  method CheckDeps(step: Step, ids: map<string, int>, ghost known: seq<string>) returns (problem: Option<Problem>)
    requires forall x :: x in ids <==> x in known
    ensures problem.None? <==> DepsFit(step, known)
    ensures problem.Some? ==> DependencyProblem(step, known, problem.value)
  {
    var deps := Deps(step);
    for j := 0 to |deps|
      invariant forall k | 0 <= k < j :: deps[k] != step.id && deps[k] in known
    {
      assert deps[j] in Deps(step);
      if deps[j] == step.id {
        return Some(SelfDependency);
      }
      if deps[j] !in ids {
        return Some(UnknownDependency);
      }
    }
    return None;
  }

  predicate StepAndDepsFit(steps: seq<Step>, i: nat)
    requires i < |steps|
  {
    StepFits(steps[i]) && DepsFit(steps[i], Ids(steps))
  }

  predicate StepProblemAt(steps: seq<Step>, i: nat, problem: Problem)
    requires i < |steps|
  {
    if problem == BadStep then !StepFits(steps[i])
    else StepFits(steps[i]) && DependencyProblem(steps[i], Ids(steps), problem)
  }

  method CheckSteps(steps: seq<Step>) returns (problem: Option<Problem>)
    requires UniqueIds(steps)
    ensures problem.None? <==> StepsFit(steps)
    ensures problem.Some? ==> problem.value in {BadStep, SelfDependency, UnknownDependency}
    ensures problem.Some? ==> FirstStepProblem(steps, problem.value)
  {
    var ids := IndexIds(steps);
    for index := 0 to |steps|
      invariant forall k | 0 <= k < index :: StepAndDepsFit(steps, k)
    {
      if !StepFits(steps[index]) {
        assert !StepAndDepsFit(steps, index) && StepProblemAt(steps, index, BadStep);
        return Some(BadStep);
      }
      problem := CheckDeps(steps[index], ids, Ids(steps));
      assert problem.Some? ==> !StepAndDepsFit(steps, index) && StepProblemAt(steps, index, problem.value);
      if problem.Some? {
        return problem;
      }
    }
    return None;
  }

  lemma FittingDepsAreKnown(steps: seq<Step>)
    requires StepsFit(steps)
    ensures KnownDeps(steps)
  {
    forall i, d | 0 <= i < |steps| && d in Deps(steps[i]) ensures d in Ids(steps) {
      assert StepAndDepsFit(steps, i);
    }
  }

  ghost predicate FirstIdProblem(steps: seq<Step>, problem: Problem) {
    exists i | 0 <= i < |steps| :: IdProblemAt(steps, i, problem) && IdsFitUntil(steps, i)
  }

  ghost predicate FirstStepProblem(steps: seq<Step>, problem: Problem) {
    exists i | 0 <= i < |steps| ::
      StepProblemAt(steps, i, problem) && forall k | 0 <= k < i :: StepAndDepsFit(steps, k)
  }

  /** The number of steps and the lengths are within their limits. */
  predicate SizesFit(sop: Definition) {
    && 1 <= |sop.steps| <= 50 && ByteLen(sop.description) <= 8000
    && ByteLen(if Trim(sop.name) != "" then Trim(sop.name) else sop.sopId) <= 200
  }

  /** What a refused definition is refused for: the first check it fails, and the first step that fails it. */
  ghost predicate RefusedFor(sop: Definition, problem: Problem) {
    match problem
    case NoSteps => sop.steps == []
    case TooManySteps => |sop.steps| > 50
    case TextTooLong => 1 <= |sop.steps| <= 50 && !SizesFit(sop)
    case BadId => SizesFit(sop) && FirstIdProblem(sop.steps, BadId)
    case DuplicateId => SizesFit(sop) && FirstIdProblem(sop.steps, DuplicateId)
    case DefaultIdTaken => SizesFit(sop) && IdsFitUntil(sop.steps, |sop.steps|) && TakesDefaultId(sop.steps)
    case BadStep => SizesFit(sop) && WrittenIdsFit(sop.steps) && FirstStepProblem(Normal(sop.steps), BadStep)
    case SelfDependency =>
      SizesFit(sop) && WrittenIdsFit(sop.steps) && FirstStepProblem(Normal(sop.steps), SelfDependency)
    case UnknownDependency =>
      SizesFit(sop) && WrittenIdsFit(sop.steps) && FirstStepProblem(Normal(sop.steps), UnknownDependency)
    case CyclicDependencies =>
      SizesFit(sop) && WrittenIdsFit(sop.steps) && StepsFit(Normal(sop.steps)) && HasCycle(Normal(sop.steps))
  }

  /** `ValidateSOP`: it accepts exactly the acceptable definitions, and refuses one as cyclic only for a real cycle. */
  method ValidateSop(sop: Definition) returns (r: Result<Definition, Problem>)
    ensures r.Ok? <==> Acceptable(sop)
    ensures r.Ok? ==> r.value == Validated(sop) && exists order: seq<string> :: IsTopologicalOrder(r.value.steps, order)
    ensures r.Err? ==> RefusedFor(sop, r.error)
    ensures r == Err(CyclicDependencies) <==>
            && HasCycle(Normal(sop.steps)) && StepsFit(Normal(sop.steps)) && WrittenIdsFit(sop.steps)
            && (forall step | step in sop.steps && step.id != "" :: IsStepId(step.id))
            && 1 <= |sop.steps| <= MAX_STEPS && ByteLen(NormalName(sop)) <= MAX_NAME
                && ByteLen(sop.description) <= MAX_TEXT
  {
    if |sop.steps| == 0 {
      return Err(NoSteps);
    }
    if |sop.steps| > MAX_STEPS {
      return Err(TooManySteps);
    }
    var name := Trim(sop.name);
    if name == "" {
      name := sop.sopId;
    }
    if ByteLen(name) > MAX_NAME || ByteLen(sop.description) > MAX_TEXT {
      return Err(TextTooLong);
    }
    var problem := CheckWrittenIds(sop.steps);
    if problem.Some? {
      return Err(problem.value);
    }
    var steps := NormalizeSopSteps(sop.steps);
    NormalIdsUnique(sop.steps);
    problem := CheckSteps(steps);
    if problem.Some? {
      return Err(problem.value);
    }
    FittingDepsAreKnown(steps);
    var cyclic := SopHasCycle(steps);
    if cyclic {
      return Err(CyclicDependencies);
    }
    r := Ok(sop.(name := name, steps := steps));
  }

  /** A definition without ids and dependency lists (version 1) is a chain, so its steps never form a cycle. */
  lemma Version1IsAChain(steps: seq<Step>)
    requires forall i | 0 <= i < |steps| :: steps[i].id == "" && steps[i].dependsOn.None?
    ensures WrittenIdsFit(steps) && KnownDeps(Normal(steps))
    ensures IsTopologicalOrder(Normal(steps), Ids(Normal(steps))) && !HasCycle(Normal(steps))
    ensures forall i | 0 < i < |steps| :: Deps(Normal(steps)[i]) == [DefaultId(i)]
  {
    var normal := Normal(steps);
    NormalIdsUnique(steps);
    forall i | 0 <= i < |normal| ensures Deps(normal[i]) == if i == 0 then [] else [Ids(normal)[i - 1]] {
      ImplicitDependency(steps, i);
    }
    ChainIsOrdered(normal);
    OrderMeansAcyclic(normal, Ids(normal));
  }

  /** Steps that each wait for the one before them are in a topological order. */
  lemma ChainIsOrdered(steps: seq<Step>)
    requires Distinct(Ids(steps))
    requires forall i | 0 <= i < |steps| :: Deps(steps[i]) == if i == 0 then [] else [Ids(steps)[i - 1]]
    ensures IsTopologicalOrder(steps, Ids(steps)) && KnownDeps(steps)
  {
    var order := Ids(steps);
    forall k, i | 0 <= k < |order| && 0 <= i < |steps| && steps[i].id == order[k]
      ensures forall d | d in Deps(steps[i]) :: d in order[..k]
    {
      assert order[i] == order[k] && i == k;
      assert k > 0 ==> order[..k][k - 1] == order[k - 1];
    }
  }

  // ---- comparing and registering ----

  /** What `SameSOP` compares. */
  function Identity(sop: Definition): (string, string, seq<Step>) {
    (NormalName(sop), sop.description, Normal(sop.steps))
  }

  predicate Same(a: Definition, b: Definition) {
    Identity(a) == Identity(b)
  }

  /** A definition is the same as its stored form, unless its id stands in for the name and has blanks around it. */
  lemma StoredFormIsSame(sop: Definition)
    ensures Same(sop, Validated(sop)) <==> Trim(sop.name) != "" || Trim(sop.sopId) in {"", sop.sopId}
  {
    NormalIdempotent(sop.steps);
    TrimFacts(sop.name);
  }

  lemma DefaultIdFits(n: nat)
    requires 1 <= n <= MAX_STEPS
    ensures IsStepId(DefaultId(n))
  {
    assert n >= 10 ==> Decimal(n) == [Digit(n / 10)] + [Digit(n % 10)];
  }

  lemma NormalIdsAreStepIds(steps: seq<Step>)
    requires |steps| <= MAX_STEPS && forall step | step in steps && step.id != "" :: IsStepId(step.id)
    ensures forall step | step in Normal(steps) && step.id != "" :: IsStepId(step.id)
  {
    forall step | step in Normal(steps) && step.id != "" ensures IsStepId(step.id) {
      var i :| 0 <= i < |steps| && Normal(steps)[i] == step;
      assert steps[i] in steps && step.id == NormalId(steps, i);
      if steps[i].id == "" {
        DefaultIdFits(i + 1);
      }
    }
  }

  lemma NormalWrittenIdsFit(steps: seq<Step>)
    requires WrittenIdsFit(steps)
    ensures WrittenIdsFit(Normal(steps))
  {
    NormalIdempotent(steps);
    NormalIdsUnique(steps);
    NormalIdsUnique(Normal(steps));
  }

  /** Validating a stored form accepts it and changes nothing more. */
  lemma StoredFormIsAccepted(sop: Definition)
    requires Acceptable(sop)
    ensures Same(sop, Validated(sop)) ==> Acceptable(Validated(sop)) && Validated(Validated(sop)) == Validated(sop)
  {
    NormalIdempotent(sop.steps);
    TrimFacts(sop.name);
    NormalWrittenIdsFit(sop.steps);
    NormalIdsAreStepIds(sop.steps);
  }

  /** The one case where an accepted definition and its stored form differ, on an input that validation accepts. */
  lemma BlanksAroundTheIdDiffer()
    ensures exists sop: Definition :: Acceptable(sop) && !Same(sop, Validated(sop))
  {
    var step := Step("", "d", "", 0, "", None, None, "", [], "");
    var sop := Definition(" x", "", "", [step]);
    assert Trim("") == "" && Trim("d") == "d" by {
      TrimFacts("d");
    }
    assert Trim(" x") == "x" by {
      assert TrimLeft(" x") == TrimLeft(" x"[1..]) && " x"[1..] == "x" && TrimLeft("x") == "x" && TrimRight("x") == "x";
    }
    StoredFormIsSame(sop);
    Version1IsAChain(sop.steps);
    OneStepFits(sop.steps);
    NameIsShort();
    assert Acceptable(sop);
  }

  lemma NameIsShort()
    ensures ByteLen(" x") == 2
  {
    assert " x"[1..] == "x" && "x"[1..] == "";
    assert ByteLen("x") == 1 + ByteLen("");
  }

  lemma OneStepFits(steps: seq<Step>)
    requires steps == [Step("", "d", "", 0, "", None, None, "", [], "")] && Trim("d") == "d" && Trim("") == ""
    ensures StepsFit(Normal(steps))
  {
    var normal := Normal(steps)[0];
    assert "d"[1..] == "" && ByteLen("d") == 1 + ByteLen("");
    assert normal.subject == "d" && normal.description == "d" && normal.maxAttempts == 3 && normal.artifacts == [];
    assert Deps(normal) == [];
  }

  datatype SopKey = SopKey(tenant: string, sopId: string, version: nat)

  type Table = map<SopKey, Definition>

  /** sop_definitions after one registration: a stored version never changes. */
  function Registered(table: Table, key: SopKey, sop: Definition): Table {
    if key in table then table else table[key := sop]
  }

  /** The name two stored forms are compared by, as it was written. */
  function ComparedName(sop: Definition): string {
    if Trim(sop.name) != "" then Trim(sop.name) else if Trim(sop.sopId) != "" then Trim(sop.sopId) else sop.sopId
  }

  lemma ComparedNameIsNormal(sop: Definition)
    ensures NormalName(Validated(sop)) == ComparedName(sop)
  {
    TrimFacts(sop.name);
    TrimFacts(sop.sopId);
  }

  /**
   * Registering a second accepted definition under a version conflicts if and only if, as they were written, the two
   * differ in name, description or normal steps.
   */
  lemma SecondRegistrationConflicts(table: Table, key: SopKey, first: Definition, second: Definition)
    requires key !in table && first.sopId == second.sopId == key.sopId
    ensures !Same(Registered(table, key, Validated(first))[key], Validated(second)) <==>
              || ComparedName(first) != ComparedName(second)
              || first.description != second.description
              || Normal(first.steps) != Normal(second.steps)
  {
    ComparedNameIsNormal(first);
    ComparedNameIsNormal(second);
    NormalIdempotent(first.steps);
    NormalIdempotent(second.steps);
  }

  class Registry {
    var table: Table

    constructor ()
      ensures table == map[]
    {
      table := map[];
    }

    /** Insert unless the version is there, read it back, and compare. */
    method Register(key: SopKey, sop: Definition) returns (conflict: bool)
      modifies this
      ensures table == Registered(old(table), key, sop)
      ensures key in table && (conflict <==> !Same(table[key], sop))
    {
      if key !in table {
        table := table[key := sop];
      }
      var existing := table[key];
      conflict := !Same(existing, sop);
    }
  }

  function RegisterAll(table: Table, requests: seq<(SopKey, Definition)>): Table {
    if requests == [] then table
    else Registered(RegisterAll(table, requests[..|requests| - 1]), requests[|requests| - 1].0,
        requests[|requests| - 1].1)
  }

  /**
   * Once a version is registered, no later sequence of registrations changes it, so registering its definition again is
   * a no-op that conflicts only if it conflicted at once.
   */
  lemma {:induction false} VersionsAreImmutable(table: Table, key: SopKey, sop: Definition,
                                                later: seq<(SopKey, Definition)>)
    requires key in table
    ensures key in RegisterAll(table, later) && RegisterAll(table, later)[key] == table[key]
    ensures Registered(RegisterAll(table, later), key, sop) == RegisterAll(table, later)
    ensures Same(RegisterAll(table, later)[key], sop) <==> Same(table[key], sop)
  {
    if later != [] {
      VersionsAreImmutable(table, key, sop, later[..|later| - 1]);
    }
  }

  // ---- the checks of one step, and what a stored form says ----

  /** What is wrong with a step, field by field. */
  predicate StepDefective(step: Step) {
    || step.subject == "" || ByteLen(step.subject) > 200 || ByteLen(step.description) > 8000
    || step.maxAttempts < 1 || step.maxAttempts > 20
    || (step.executor != "" && !IsVersionedId(step.executor))
    || (step.verifier.Some? && ByteLen(step.verifier.value.instructions) > 8000)
    || (step.verifier.Some? && step.verifier.value.expert != "" && !IsVersionedId(step.verifier.value.expert))
    || (step.outputSchemaRef != "" && !IsSchemaRef(step.outputSchemaRef))
    || (exists a | a in step.artifacts :: a.name == "" || a.mediaType == "" || a.minCount < 1)
    || (step.humanApproval != "" && step.humanApproval != "before" && step.humanApproval != "after")
  }

  lemma FitsUnlessDefective(step: Step)
    ensures StepFits(step) <==> !StepDefective(step)
  {
  }

  /** An accepted definition is stored under its name without blanks, or under its id, with its steps normalised. */
  lemma ValidatedSays(sop: Definition)
    ensures var v := Validated(sop);
      && v.sopId == sop.sopId && v.description == sop.description && v.steps == Normal(sop.steps)
      && v.name == if Trim(sop.name) != "" then Trim(sop.name) else sop.sopId
  {
  }
}
