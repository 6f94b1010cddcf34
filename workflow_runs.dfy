/** The mapping of recent workflow runs (src/app/api/github/route.ts:104-117). */
module WorkflowRuns {
  import opened Wrappers
  import opened Text
  import opened Records

  const BotMarker := "[bot]"
  const UnknownActor := "unknown"

  datatype Actor = Actor(login: Option<string>)

  /** One element of `workflow_runs` in the API reply. */
  datatype RunItem = RunItem(
    id: int,
    name: string,
    status: string,
    conclusion: Option<string>,
    createdAt: string,
    updatedAt: string,
    actor: Option<Actor>)

  /** `run.actor?.login`. */
  function LoginOf(run: RunItem): Option<string> {
    if run.actor.Some? then run.actor.value.login else None
  }

  /** One run, field by field: `actor` is the login or "unknown" when there is
      no (truthy) login, and `is_bot` says whether the login holds "[bot]". */
  function MapRun(run: RunItem): (r: WorkflowRun)
    ensures r.id == run.id && r.name == run.name && r.status == run.status
    ensures r.conclusion == run.conclusion
    ensures r.createdAt == run.createdAt && r.updatedAt == run.updatedAt
    ensures r.actor != ""
    ensures r.isBot <==> Contains(r.actor, BotMarker)
    ensures LoginOf(run).Some? && LoginOf(run).value != "" ==> r.actor == LoginOf(run).value
    ensures !(LoginOf(run).Some? && LoginOf(run).value != "") ==> r.actor == UnknownActor
    ensures r.isBot ==> LoginOf(run).Some? && Contains(LoginOf(run).value, BotMarker)
  {
    var login := LoginOf(run);
    NotContainsWithoutFirst(UnknownActor, BotMarker);
    NotContainsWithoutFirst("", BotMarker);
    WorkflowRun(run.id, run.name, run.status, run.conclusion, run.createdAt, run.updatedAt,
                if login.Some? && login.value != "" then login.value else UnknownActor,
                login.Some? && Contains(login.value, BotMarker))
  }

  /** `workflow_runs.map(...)`: one record per run, in order. */
  function MapRuns(runs: seq<RunItem>): (rs: seq<WorkflowRun>)
    ensures |rs| == |runs|
    ensures forall i :: 0 <= i < |runs| ==> rs[i] == MapRun(runs[i])
  {
    if runs == [] then [] else [MapRun(runs[0])] + MapRuns(runs[1..])
  }

  /** `actions`: the mapped runs of a successful reply, and `[]` when the
      reply failed or carries no `workflow_runs`. */
  function Actions(ok: bool, workflowRuns: Option<seq<RunItem>>): (rs: seq<WorkflowRun>)
    ensures !ok || workflowRuns.None? ==> rs == []
    ensures ok && workflowRuns.Some? ==> |rs| == |workflowRuns.value|
    ensures ok && workflowRuns.Some? ==> forall i :: 0 <= i < |rs| ==> rs[i] == MapRun(workflowRuns.value[i])
    ensures forall r <- rs :: r.isBot <==> Contains(r.actor, BotMarker)
  {
    if ok && workflowRuns.Some? then MapRuns(workflowRuns.value) else []
  }
}
