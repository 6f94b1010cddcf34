/** The JSON records the route reads from the hosting API and returns to the
    dashboard (src/app/api/github/route.ts:104-123, 157-173). */
module Records {
  import opened Wrappers

  /** `response.ok` of the Fetch API: a status in the 2xx range. */
  predicate IsOk(status: int) {
    200 <= status <= 299
  }

  /** One element of the "list organization repositories" page, restricted to
      the fields the route copies. */
  datatype RepoItem = RepoItem(
    id: int,
    name: string,
    description: Option<string>,
    htmlUrl: string,
    stars: nat,
    forks: nat,
    updatedAt: string,
    openIssues: nat,
    language: Option<string>)

  /** The four fields the route fills with random values (route.ts:169-172).
      They are inputs here: the model does not invent them. */
  datatype Synthetic = Synthetic(
    actionsCount: nat,
    lastActionDate: string,
    lastActionBy: string,
    isBotAction: bool)

  /** One recent workflow run as the route reports it (route.ts:107-116). */
  datatype WorkflowRun = WorkflowRun(
    id: int,
    name: string,
    status: string,
    conclusion: Option<string>,
    createdAt: string,
    updatedAt: string,
    actor: string,
    isBot: bool)

  /** One element of the JSON array the route answers with. */
  datatype RepoRecord = RepoRecord(
    id: int,
    name: string,
    description: Option<string>,
    htmlUrl: string,
    stars: nat,
    forks: nat,
    updatedAt: string,
    openIssues: nat,
    language: Option<string>,
    commitsCount: nat,
    actions: seq<WorkflowRun>,
    actionsCount: nat,
    lastActionDate: string,
    lastActionBy: string,
    isBotAction: bool)

  /** The upstream fields a record carries. */
  function SourceItem(r: RepoRecord): RepoItem {
    RepoItem(r.id, r.name, r.description, r.htmlUrl, r.stars, r.forks,
             r.updatedAt, r.openIssues, r.language)
  }

  /** The summary record built for every listed repository before any
      enhancement: upstream fields copied, no commits, no runs. */
  function Summarize(item: RepoItem, extra: Synthetic): (r: RepoRecord)
    ensures SourceItem(r) == item
    ensures r.commitsCount == 0 && r.actions == []
    ensures r.isBotAction == extra.isBotAction
  {
    RepoRecord(item.id, item.name, item.description, item.htmlUrl, item.stars,
               item.forks, item.updatedAt, item.openIssues, item.language,
               0, [], extra.actionsCount, extra.lastActionDate, extra.lastActionBy,
               extra.isBotAction)
  }
}
