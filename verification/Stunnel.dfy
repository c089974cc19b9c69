/** TLS side-cars, pkg/k8sutil/stunnel.go. */
module Stunnel {
  import opened ApiTypes
  import opened Decimal

  const TLS_PORT: int32 := 443
  const FIRST_SPRINGBOARD_PORT := 6789

  const ACCEPT_PORT := "STUNNEL_ACCEPT_PORT"
  const CONNECT := "STUNNEL_CONNECT"
  const VERIFY_CHAIN := "STUNNEL_VERIFY_CHAIN"
  const CERT_FILE := "STUNNEL_CERT_FILE"
  const KEY_FILE := "STUNNEL_KEY_FILE"
  const SPRINGBOARD_PORT := "SPRINGBOARD_LISTEN_PORT"
  const CLIENT_MODE := "STUNNEL_CLIENT_MODE"
  const CHECK_HOST := "STUNNEL_CHECKHOST_LINE"

  /** The arguments of one AddStunnelToPod call. */
  datatype Sidecar = Sidecar(
    containerName: string,
    listenPort: int32,
    verifyChain: string,
    destHostAndPort: string,
    checkHost: string,
    tlsSecretName: string,
    isNginxIngressStyleCertSecret: bool,
    isClientMode: bool,
    springBoardDelaySeconds: int32,
    index: nat)

  function BaseEnv(s: Sidecar): seq<EnvVar> {
    [ EnvVar(VERIFY_CHAIN, s.verifyChain),
      EnvVar(ACCEPT_PORT, Dec(s.listenPort)),
      EnvVar(CONNECT, s.destHostAndPort),
      EnvVar(SPRINGBOARD_PORT, Dec(FIRST_SPRINGBOARD_PORT + s.index)),
      EnvVar(CERT_FILE, "/etc/stunnel/certs/tls.crt"),
      EnvVar(KEY_FILE, "/etc/stunnel/certs/tls.key") ]
  }

  function ExtraEnv(s: Sidecar): seq<EnvVar> {
    (if s.isClientMode
     then [EnvVar(CLIENT_MODE, "yes")]
          + (if s.springBoardDelaySeconds > 0
             then [EnvVar("SPRINGBOARD_DELAY_SECONDS", Dec(s.springBoardDelaySeconds))]
             else [])
     else [])
    + (if s.checkHost != "" then [EnvVar(CHECK_HOST, "checkHost=" + s.checkHost)] else [])
    + (if s.isNginxIngressStyleCertSecret
       then [ EnvVar(CERT_FILE, "/etc/stunnel/certs/tls.crt"),
              EnvVar(KEY_FILE, "/etc/stunnel/certs/tls.key") ]
       else [])
  }

  function StunnelEnvVars(s: Sidecar): seq<EnvVar> {
    BaseEnv(s) + ExtraEnv(s)
  }

  function VolumeName(s: Sidecar): string {
    s.containerName + "-certs"
  }

  function SidecarVolume(s: Sidecar): Volume {
    Volume(VolumeName(s), s.tlsSecretName)
  }

  function SidecarContainer(s: Sidecar): Container {
    Container(s.containerName, [s.listenPort], StunnelEnvVars(s), [VolumeName(s)])
  }

  function InsertStunnel(s: Sidecar, volumes: seq<Volume>, containers: seq<Container>): (seq<Volume>, seq<Container>) {
    (volumes + [SidecarVolume(s)], containers + [SidecarContainer(s)])
  }

  /** A pod with side-cars inserted one after the other and the results kept. */
  function WithSidecars(pod: Pod, sidecars: seq<Sidecar>): Pod
    decreases |sidecars|
  {
    if sidecars == [] then pod
    else
      var (volumes, containers) := InsertStunnel(sidecars[0], pod.volumes, pod.containers);
      WithSidecars(pod.(volumes := volumes, containers := containers), sidecars[1..])
  }

  lemma {:induction false} WithSidecarsAppends(pod: Pod, sidecars: seq<Sidecar>)
    ensures var p, c, v := WithSidecars(pod, sidecars), |pod.containers|, |pod.volumes|;
            && |p.containers| == c + |sidecars| && |p.volumes| == v + |sidecars|
            && p.serviceAccountName == pod.serviceAccountName
            && (forall i :: 0 <= i < c ==> p.containers[i] == pod.containers[i])
            && (forall i :: 0 <= i < v ==> p.volumes[i] == pod.volumes[i])
            && (forall i :: 0 <= i < |sidecars| ==> p.containers[c + i] == SidecarContainer(sidecars[i]))
            && (forall i :: 0 <= i < |sidecars| ==> p.volumes[v + i] == SidecarVolume(sidecars[i]))
    decreases |sidecars|
  {
    if sidecars != [] {
      var (volumes, containers) := InsertStunnel(sidecars[0], pod.volumes, pod.containers);
      var rest := pod.(volumes := volumes, containers := containers);
      WithSidecarsAppends(rest, sidecars[1..]);
      var p := WithSidecars(rest, sidecars[1..]);
      forall i | 0 <= i < |sidecars|
        ensures p.containers[|pod.containers| + i] == SidecarContainer(sidecars[i])
        ensures p.volumes[|pod.volumes| + i] == SidecarVolume(sidecars[i])
      {
        if i > 0 {
          assert p.containers[|rest.containers| + (i - 1)] == SidecarContainer(sidecars[1..][i - 1]);
          assert p.volumes[|rest.volumes| + (i - 1)] == SidecarVolume(sidecars[1..][i - 1]);
        }
      }
    }
  }

  /** The pod specification that GenerateResources copies and then changes in place. */
  class PodSpec {
    var containers: seq<Container>
    var volumes: seq<Volume>
    var serviceAccountName: string
    var added: seq<Sidecar> // the AddStunnelToPod calls made on this pod so far

    constructor DeepCopy(pod: Pod)
      ensures Value() == pod && added == []
    {
      containers, volumes, serviceAccountName := pod.containers, pod.volumes, pod.serviceAccountName;
      added := [];
    }

    function Value(): Pod
      reads this
    {
      Pod(containers, volumes, serviceAccountName)
    }
  }

  /** Documented as changing the pod, but the extended slices that InsertStunnel returns are
      not stored back, so the pod keeps its containers and volumes. */
  method AddStunnelToPod(podSpec: PodSpec, s: Sidecar)
    modifies podSpec`added
    ensures podSpec.Value() == old(podSpec.Value())
    ensures podSpec.added == old(podSpec.added) + [s]
  {
    var _ := InsertStunnel(s, podSpec.volumes, podSpec.containers);
    podSpec.added := podSpec.added + [s];
  }
}
