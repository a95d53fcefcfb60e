/** The Kubernetes objects the controllers read, reduced to the fields they look at. */
module KubeObjects {
  import opened Common

  /** Requests of one container in millicores and bytes; an absent request reads as zero. */
  datatype Container = Container(cpuMilli: nat, memBytes: nat)

  datatype Operator = In | NotIn | Exists | DoesNotExist | Gt | Lt | Unrecognized

  datatype Expression = Expression(key: string, op: Operator, values: seq<string>)

  /** A node selector term; only matchExpressions are read by the pool controller. */
  datatype Term = Term(matchExpressions: seq<Expression>)

  datatype PodPhase = Pending | Running | Succeeded | Failed | UnknownPhase

  datatype Pod = Pod(
    name: string,
    containers: seq<Container>,
    nodeSelector: map<string, string>,
    requiredTerms: Option<seq<Term>>,
    mirror: bool,
    daemonSet: bool,
    toleratesUnschedulable: bool,
    deleting: bool,
    phase: PodPhase)

  /** A node as the pool controller reads it. */
  datatype PoolNode = PoolNode(
    name: string,
    unschedulable: bool,
    allocatableCpu: nat,
    allocatableMem: nat,
    capacityCpu: nat,
    capacityMem: nat)

  function ContainerCpu(c: Container): int { c.cpuMilli }

  function ContainerMem(c: Container): int { c.memBytes }

  function RequestedCpu(p: Pod): (r: int)
    ensures r >= 0
  {
    SumNonNegative(p.containers, ContainerCpu);
    Sum(p.containers, ContainerCpu)
  }

  function RequestedMem(p: Pod): (r: int)
    ensures r >= 0
  {
    SumNonNegative(p.containers, ContainerMem);
    Sum(p.containers, ContainerMem)
  }

  /** What a pod asks for is the sum over its containers. */
  method GetRequestedResources(p: Pod) returns (cpuMilli: nat, memBytes: nat)
    ensures cpuMilli == RequestedCpu(p)
    ensures memBytes == RequestedMem(p)
  {
    var cpu, mem := 0, 0;
    for i := 0 to |p.containers|
      invariant cpu == Sum(p.containers[..i], ContainerCpu)
      invariant mem == Sum(p.containers[..i], ContainerMem)
    {
      SumPrefix(p.containers, i, ContainerCpu);
      SumPrefix(p.containers, i, ContainerMem);
      cpu := cpu + p.containers[i].cpuMilli;
      mem := mem + p.containers[i].memBytes;
    }
    assert p.containers[..|p.containers|] == p.containers;
    assert cpu == RequestedCpu(p) && mem == RequestedMem(p);
    cpuMilli, memBytes := cpu, mem;
  }
}
