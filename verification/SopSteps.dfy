/** The steps of an SOP and the defaults that normalisation gives them (internal/task/sop.go). */
module SopSteps {
  import opened Common
  import opened Strings

  datatype Verifier = Verifier(instructions: string, expert: string)

  datatype ArtifactSpec = ArtifactSpec(name: string, mediaType: string, minCount: int)

  /** `dependsOn` None is the absent list of the source (nil), which differs from an empty one. */
  datatype Step = Step(
    id: string, subject: string, description: string, maxAttempts: int, executor: string, verifier: Option<Verifier>,
    dependsOn: Option<seq<string>>, outputSchemaRef: string, artifacts: seq<ArtifactSpec>, humanApproval: string)

  const DEFAULT_STEP_ATTEMPTS := 3

  function Deps(step: Step): seq<string> {
    if step.dependsOn.None? then [] else step.dependsOn.value
  }

  function Ids(steps: seq<Step>): seq<string> {
    seq(|steps|, i requires 0 <= i < |steps| => steps[i].id)
  }

  predicate UniqueIds(steps: seq<Step>) {
    forall i, j | 0 <= i < j < |steps| :: steps[i].id != steps[j].id
  }

  predicate KnownDeps(steps: seq<Step>) {
    forall i, d | 0 <= i < |steps| && d in Deps(steps[i]) :: d in Ids(steps)
  }

  /** What `dedupe` computes: the first occurrence of every item, in order. */
  function Dedupe(items: seq<string>): seq<string> {
    if items == [] then [] else
      var rest := Dedupe(items[..|items| - 1]);
      if items[|items| - 1] in rest then rest else rest + [items[|items| - 1]]
  }

  lemma {:induction false} DedupeFacts(items: seq<string>)
    ensures Distinct(Dedupe(items))
    ensures forall x :: x in Dedupe(items) <==> x in items
    ensures Distinct(items) ==> Dedupe(items) == items
  {
    if items != [] {
      var front, last := items[..|items| - 1], items[|items| - 1];
      assert items == front + [last];
      DedupeFacts(front);
    }
  }

  method DedupeItems(items: seq<string>) returns (out: seq<string>)
    ensures out == Dedupe(items)
  {
    var seen: set<string> := {};
    out := [];
    for i := 0 to |items|
      invariant out == Dedupe(items[..i])
      invariant forall x :: x in seen <==> x in out
    {
      assert items[..i + 1][..i] == items[..i];
      if items[i] !in seen {
        seen := seen + {items[i]};
        out := out + [items[i]];
      }
    }
    assert items[..|items|] == items;
  }

  function DefaultId(position: nat): string {
    "s" + Decimal(position)
  }

  function NormalId(steps: seq<Step>, i: nat): string
    requires i < |steps|
  {
    if steps[i].id == "" then DefaultId(i + 1) else steps[i].id
  }

  function NormalArtifacts(specs: seq<ArtifactSpec>): seq<ArtifactSpec> {
    seq(|specs|, i requires 0 <= i < |specs| => if specs[i].minCount == 0 then specs[i].(minCount := 1) else specs[i])
  }

  /** The normal form of one step of a definition. */
  function NormalStep(steps: seq<Step>, i: nat): Step
    requires i < |steps|
  {
    var step := steps[i];
    var subject := Trim(step.subject);
    step.(
      id := NormalId(steps, i),
      subject := subject,
      description := if Trim(step.description) == "" then subject else step.description,
      maxAttempts := if step.maxAttempts == 0 then DEFAULT_STEP_ATTEMPTS else step.maxAttempts,
      dependsOn := Some(if step.dependsOn.Some? then Dedupe(step.dependsOn.value)
                        else if i > 0 then [NormalId(steps, i - 1)] else []),
      artifacts := NormalArtifacts(step.artifacts))
  }

  function Normal(steps: seq<Step>): seq<Step> {
    seq(|steps|, i requires 0 <= i < |steps| => NormalStep(steps, i))
  }

  method NormalizeArtifacts(specs: seq<ArtifactSpec>) returns (artifacts: seq<ArtifactSpec>)
    ensures artifacts == NormalArtifacts(specs)
  {
    artifacts := specs;
    for i := 0 to |artifacts|
      invariant |artifacts| == |specs|
      invariant forall k | 0 <= k < i :: artifacts[k] == NormalArtifacts(specs)[k]
      invariant forall k | i <= k < |artifacts| :: artifacts[k] == specs[k]
    {
      if artifacts[i].minCount == 0 {
        artifacts := artifacts[i := artifacts[i].(minCount := 1)];
      }
    }
  }

  /** One turn of the loop of `NormalizeSOPSteps`. */
  method NormalizeStep(steps: seq<Step>, index: nat) returns (step: Step)
    requires index < |steps|
    ensures step == NormalStep(steps, index)
  {
    step := steps[index];
    step := step.(subject := Trim(step.subject));
    if step.id == "" {
      step := step.(id := DefaultId(index + 1));
    }
    if Trim(step.description) == "" {
      step := step.(description := step.subject);
    }
    if step.maxAttempts == 0 {
      step := step.(maxAttempts := DEFAULT_STEP_ATTEMPTS);
    }
    if step.dependsOn.None? && index > 0 {
      step := step.(dependsOn := Some([DefaultId(index)]));
      var previous := steps[index - 1].id;
      if previous != "" {
        step := step.(dependsOn := Some([previous]));
      }
    } else if step.dependsOn.None? {
      step := step.(dependsOn := Some([]));
    } else {
      var deps := DedupeItems(step.dependsOn.value);
      step := step.(dependsOn := Some(deps));
    }
    var artifacts := NormalizeArtifacts(step.artifacts);
    step := step.(artifacts := artifacts);
  }

  method NormalizeSopSteps(steps: seq<Step>) returns (out: seq<Step>)
    ensures out == Normal(steps)
  {
    out := [];
    for index := 0 to |steps|
      invariant |out| == index
      invariant forall k | 0 <= k < index :: out[k] == NormalStep(steps, k)
    {
      var step := NormalizeStep(steps, index);
      out := out + [step];
    }
  }

  lemma NormalStepIdempotent(steps: seq<Step>, i: nat)
    requires i < |steps|
    ensures NormalStep(Normal(steps), i) == NormalStep(steps, i)
  {
    var once := NormalStep(steps, i);
    TrimFacts(steps[i].subject);
    if steps[i].dependsOn.Some? {
      DedupeFacts(steps[i].dependsOn.value);
      DedupeFacts(Dedupe(steps[i].dependsOn.value));
    }
    assert NormalArtifacts(once.artifacts) == once.artifacts;
    assert Dedupe(Deps(once)) == Deps(once) by { DedupeFacts(Deps(once)); }
  }

  /** Normalising a normal definition changes nothing. */
  lemma NormalIdempotent(steps: seq<Step>)
    ensures Normal(Normal(steps)) == Normal(steps)
  {
    forall i | 0 <= i < |steps| ensures Normal(Normal(steps))[i] == Normal(steps)[i] {
      NormalStepIdempotent(steps, i);
    }
  }

  /** A step without a dependency list waits for exactly the normal id of the step before it. */
  lemma ImplicitDependency(steps: seq<Step>, i: nat)
    requires i < |steps| && steps[i].dependsOn.None?
    ensures Deps(Normal(steps)[i]) == if i == 0 then [] else [Normal(steps)[i - 1].id]
  {
  }

  /** The check that ValidateSOP makes on the written ids, before any default id is given. */
  predicate WrittenIdsFit(steps: seq<Step>) {
    && (forall i, j | 0 <= i < j < |steps| && steps[i].id != "" :: steps[i].id != steps[j].id)
    && (forall i, j | 0 <= i < |steps| && 0 <= j < |steps| && steps[i].id == "" :: steps[j].id != DefaultId(i + 1))
  }

  lemma NormalIdsDiffer(steps: seq<Step>, i: nat, j: nat)
    requires WrittenIdsFit(steps) && i < j < |steps|
    ensures NormalId(steps, i) != NormalId(steps, j)
  {
    if steps[i].id == "" && steps[j].id == "" && NormalId(steps, i) == NormalId(steps, j) {
      DecimalInjective("s", i + 1, j + 1);
      assert false;
    }
  }

  /** The normal ids are unique exactly when the written ones fit, so a second uniqueness check can never fire. */
  lemma NormalIdsUnique(steps: seq<Step>)
    ensures UniqueIds(Normal(steps)) <==> WrittenIdsFit(steps)
  {
    if WrittenIdsFit(steps) {
      forall i, j | 0 <= i < j < |steps| ensures Normal(steps)[i].id != Normal(steps)[j].id {
        NormalIdsDiffer(steps, i, j);
      }
    } else if i, j :| 0 <= i < j < |steps| && steps[i].id != "" && steps[i].id == steps[j].id {
      assert Normal(steps)[i].id == Normal(steps)[j].id;
    } else {
      var i, j :| 0 <= i < |steps| && 0 <= j < |steps| && steps[i].id == "" && steps[j].id == DefaultId(i + 1);
      assert Normal(steps)[i].id == Normal(steps)[j].id && i != j;
    }
  }

  // ---- what normalisation leaves and what it changes ----

  /** `x` is there before `y` is for the first time. */
  predicate FirstBefore(items: seq<string>, x: string, y: string) {
    exists k | 0 <= k < |items| :: items[k] == x && y !in items[..k + 1]
  }

  lemma FirstStays(items: seq<string>, e: string, x: string, y: string)
    requires FirstBefore(items, x, y) || (x in items && y !in items && y == e)
    ensures FirstBefore(items + [e], x, y)
  {
    var more := items + [e];
    var k :| 0 <= k < |items| && items[k] == x && y !in items[..k + 1];
    assert more[k] == x && more[..k + 1] == items[..k + 1];
  }

  /** The items come in the order of their first occurrences. */
  lemma {:induction false} DedupeOrder(items: seq<string>)
    ensures forall i, j | 0 <= i < j < |Dedupe(items)| :: FirstBefore(items, Dedupe(items)[i], Dedupe(items)[j])
  {
    if items != [] {
      var front, last := items[..|items| - 1], items[|items| - 1];
      assert items == front + [last];
      DedupeOrder(front);
      DedupeFacts(front);
      var all := Dedupe(items);
      forall i, j | 0 <= i < j < |all| ensures FirstBefore(items, all[i], all[j]) {
        if j < |Dedupe(front)| {
          assert all[i] == Dedupe(front)[i] && all[j] == Dedupe(front)[j];
        } else {
          assert all[i] in Dedupe(front) && all[j] == last;
        }
        FirstStays(front, last, all[i], all[j]);
      }
    }
  }

  /** `deps` are the written dependencies without repetitions, or the step before when none are written. */
  ghost predicate DependsAsWritten(steps: seq<Step>, i: nat, deps: seq<string>)
    requires i < |steps|
  {
    match steps[i].dependsOn
    case None =>
      if i == 0 then deps == []
      else deps == [if steps[i - 1].id != "" then steps[i - 1].id else "s" + Decimal(i)]
    case Some(written) =>
      && (forall d :: d in deps <==> d in written)
      && forall j, k | 0 <= j < k < |deps| :: deps[j] != deps[k] && FirstBefore(written, deps[j], deps[k])
  }

  /** Only a missing count of an artifact becomes 1. */
  predicate CountsArtifacts(before: seq<ArtifactSpec>, after: seq<ArtifactSpec>) {
    && |after| == |before|
    && forall k | 0 <= k < |after| ::
         && after[k].name == before[k].name && after[k].mediaType == before[k].mediaType
         && after[k].minCount == if before[k].minCount != 0 then before[k].minCount else 1
  }

  /** The normal form of a step: what is written stays, and only what is missing gets its default. */
  lemma NormalSays(steps: seq<Step>, i: nat)
    requires i < |steps|
    ensures |Normal(steps)| == |steps|
    ensures var s, n := steps[i], Normal(steps)[i];
      && n.id == (if s.id != "" then s.id else "s" + Decimal(i + 1))
      && n.subject == Trim(s.subject)
      && n.description == (if Trim(s.description) != "" then s.description else Trim(s.subject))
      && n.maxAttempts == (if s.maxAttempts != 0 then s.maxAttempts else 3)
      && n.dependsOn.Some? && DependsAsWritten(steps, i, n.dependsOn.value)
      && CountsArtifacts(s.artifacts, n.artifacts)
      && n.executor == s.executor && n.verifier == s.verifier && n.outputSchemaRef == s.outputSchemaRef
      && n.humanApproval == s.humanApproval
  {
    if steps[i].dependsOn.Some? {
      DedupeFacts(steps[i].dependsOn.value);
      DedupeOrder(steps[i].dependsOn.value);
    }
  }
}
