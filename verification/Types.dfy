/** The API objects: Redkey, RedkeyConfig, their statuses and conditions. */
module Types {
  datatype Option<+T> = None | Some(value: T)

  /** Labels or annotations. A nil Go map and an empty one are the same value here. */
  datatype Meta = Meta(entries: map<string, string>)

  const CLUSTER_LABEL := "redkey.inditex.dev/cluster"
  const GENERATION_ANNOTATION := "redkey.inditex.dev/cluster-generation"

  datatype Mode = ModeCluster | ModeStandalone

  /** RedkeySpec. `payload` stands for the fields copied verbatim into every config, `robin` for the
      fields that stay with the operator (Robin image and template, backup). `storage` is None when
      the JSON field is absent. */
  datatype Spec = Spec(
    mode: Mode, primaries: int, replicas: int,
    ephemeral: bool, storage: Option<string>, storageClass: string, accessModes: seq<string>,
    purge: bool, labels: Meta, annotations: Meta, payload: string, robin: string)

  /** RedkeyConfigSpec without its sequence. */
  datatype ConfigSpec = ConfigSpec(
    mode: Mode, primaries: int, replicas: int,
    ephemeral: bool, storage: Option<string>, storageClass: string,
    purge: bool, labels: Meta, annotations: Meta, payload: string)

  datatype ConfigPhase =
    | ConfigPhaseUnset | ConfigPhasePending | ConfigPhaseInProgress
    | ConfigPhaseSuperseded | ConfigPhaseApplied | ConfigPhaseOther(text: string)

  /** The operational status text: empty, Ready, Error, or the name of a running operation. */
  datatype ClusterStatus = NoStatus | ClusterStatusReady | ClusterStatusError | Operation(name: string)

  datatype Phase = PhaseUnset | PhaseReady | PhaseConfiguring | PhaseError

  datatype Health =
    | Healthy | MembershipHealthy | SlotsCovered | SlotsBalanced | ReplicasBalanced | ClusterCheckPassing

  datatype Kind = KindReady | KindConfigPending | KindError | KindHealth(health: Health) | KindOther(text: string)

  datatype Truth = ConditionTrue | ConditionFalse | ConditionUnknown

  datatype Condition = Condition(kind: Kind, status: Truth, reason: string, message: string, since: int)

  /** `detail` stands for the substatus and the node map, which are mirrored verbatim. */
  datatype ConfigStatus = ConfigStatus(
    phase: ConfigPhase, status: ClusterStatus, detail: string, conditions: seq<Condition>)

  const NEW_CONFIG_STATUS := ConfigStatus(ConfigPhaseUnset, NoStatus, "", [])

  /** What the operator writes once and nobody changes: sequence, metadata and spec. */
  datatype Manifest = Manifest(sequence: nat, labels: Meta, annotations: Meta, spec: ConfigSpec)

  /** A RedkeyConfig: the operator's manifest and Robin's status. */
  datatype Config = Config(manifest: Manifest, status: ConfigStatus)

  datatype Status = Status(
    replicas: int, phase: Phase, status: ClusterStatus, detail: string, conditions: seq<Condition>,
    updatedAt: int, observed: int, lastPrimaries: int, lastReplicas: int)

  /** Stands for a Redkey without a status: the API server drops the status of a create, so there is none
      until the operator's first status write. Neither writer leaves the phase unset. */
  const NEW_STATUS := Status(0, PhaseUnset, NoStatus, "", [], 0, 0, 0, 0)

  datatype Redkey = Redkey(generation: int, spec: Spec, status: Status)

  /** The objects the operator keeps for Robin. */
  datatype RobinObject = ServiceAccount | Role | RoleBinding | Deployment

  function Record(status: Status): (int, int) {
    (status.lastPrimaries, status.lastReplicas)
  }

  function Topology(spec: ConfigSpec): (int, int) {
    (spec.primaries, spec.replicas)
  }
}
