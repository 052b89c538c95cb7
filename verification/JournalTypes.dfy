/** Deployments, resources and journal entries, with the members the replay looks at. */
module JournalTypes {
  import opened Wrappers

  /** A resource; `rest` stands for the members the replay only carries along. */
  datatype Resource = Resource(
    urn: string,
    parent: Option<string>,
    dependencies: Option<seq<string>>,
    propertyDependencies: Option<map<string, seq<string>>>,
    replaceWith: Option<seq<string>>,
    deletedWith: Option<string>,
    pendingReplacement: Option<bool>,
    delete: Option<bool>,
    rest: string)

  datatype Operation = Operation(kind: string, resource: Resource)

  datatype Deployment = Deployment(
    resources: Option<seq<Resource>>,
    pendingOperations: Option<seq<Operation>>,
    secretsProviders: Option<string>,
    rest: string)

  datatype Kind =
    | Begin
    | Success
    | Failure
    | RefreshSuccess
    | Outputs
    | Write
    | SecretsManager
    | RebuiltBaseState
    | Unknown

  datatype Entry = Entry(
    kind: Kind,
    operationId: int,
    state: Option<Resource>,
    operation: Option<Operation>,
    secretsProvider: Option<string>,
    newSnapshot: Option<Deployment>,
    removeOld: Option<int>,
    removeNew: Option<int>,
    pendingReplacementOld: Option<int>,
    pendingReplacementNew: Option<int>,
    deleteOld: Option<int>,
    deleteNew: Option<int>,
    isRefresh: bool,
    elideWrite: bool)
}
