/** kubeconfigForCluster: the kubeconfig secret, created when absent, and the client built from it. */
module Secrets {
  import opened Types

  datatype SecretKey = SecretKey(namespace: string, name: string)
  datatype Cluster = Cluster(namespace: string, name: string)

  function KubeconfigKey(c: Cluster): SecretKey {
    SecretKey(c.namespace, c.name + "-kubeconfig")
  }

  function CaKey(c: Cluster): SecretKey {
    SecretKey(c.namespace, c.name + "-ca")
  }

  function JoinTokenKey(c: Cluster): SecretKey {
    SecretKey(c.namespace, c.name + "-jointoken")
  }

  /** The outcomes of the calls it makes. `generate` covers the certificates made from the CA secret. */
  datatype KubeCalls = KubeCalls(
    list: bool, cluster: bool, endpointValid: bool, generate: bool, create: CallResult, get: bool, connect: bool)

  /** Secrets are listed in all namespaces, and only the name is compared. */
  predicate Found(c: Cluster, secrets: set<SecretKey>) {
    exists s :: s in secrets && s.name == KubeconfigKey(c).name
  }

  predicate TriesToCreate(c: Cluster, k: KubeCalls, secrets: set<SecretKey>) {
    k.list && k.cluster && !Found(c, secrets) && k.endpointValid
  }

  predicate Generates(c: Cluster, k: KubeCalls, secrets: set<SecretKey>) {
    k.generate && CaKey(c) in secrets
  }

  function SecretsAfter(c: Cluster, k: KubeCalls, secrets: set<SecretKey>): set<SecretKey> {
    if TriesToCreate(c, k, secrets) && Generates(c, k, secrets) && k.create.Landed() then
      secrets + {KubeconfigKey(c)}
    else secrets
  }

  /** A client comes back. */
  predicate Connects(c: Cluster, k: KubeCalls, secrets: set<SecretKey>) {
    && k.list && k.cluster
    && (TriesToCreate(c, k, secrets) ==> Generates(c, k, secrets) && k.create.Done?)
    && k.get && KubeconfigKey(c) in SecretsAfter(c, k, secrets) && k.connect
  }

  /** Some namespace holds a secret of the kubeconfig's name. */
  predicate NameTaken(c: Cluster, secrets: set<SecretKey>) {
    exists s :: s in secrets && s.name == c.name + "-kubeconfig"
  }

  /** A client is had exactly if the calls that list, read and connect succeed and the cluster's own secret is there, or
      is created: its name is free everywhere, there are an endpoint and a CA, and the creation succeeds. */
  lemma ConnectsMeans(c: Cluster, k: KubeCalls, secrets: set<SecretKey>)
    ensures
      var own, ca := SecretKey(c.namespace, c.name + "-kubeconfig"), SecretKey(c.namespace, c.name + "-ca");
      Connects(c, k, secrets) <==>
        && k.list && k.cluster && k.get && k.connect
        && (own in secrets
            || (!NameTaken(c, secrets) && k.endpointValid && k.generate && ca in secrets && k.create.Done?))
  {
    var own := SecretKey(c.namespace, c.name + "-kubeconfig");
    if own in secrets {
      assert own.name == c.name + "-kubeconfig";
    }
  }

  /** And it is created under those conditions only, also when the reply is lost. */
  lemma CreatesMeans(c: Cluster, k: KubeCalls, secrets: set<SecretKey>)
    ensures
      var own, ca := SecretKey(c.namespace, c.name + "-kubeconfig"), SecretKey(c.namespace, c.name + "-ca");
      SecretsAfter(c, k, secrets)
      == if k.list && k.cluster && !NameTaken(c, secrets) && k.endpointValid && k.generate && ca in secrets
            && !k.create.Failed? then secrets + {own}
         else secrets
  {
  }

  predicate CallsSucceed(k: KubeCalls) {
    k.list && k.cluster && k.endpointValid && k.generate && k.create.Done? && k.get && k.connect
  }

  /** When every call succeeds and the CA is there, a client is had exactly if the secret exists or no namespace
      holds one of that name: a namesake elsewhere blocks the creation for good. */
  lemma ConnectsIff(c: Cluster, k: KubeCalls, secrets: set<SecretKey>)
    requires CallsSucceed(k) && CaKey(c) in secrets
    ensures Connects(c, k, secrets) <==> KubeconfigKey(c) in secrets || !Found(c, secrets)
    ensures Connects(c, k, secrets) ==> KubeconfigKey(c) in SecretsAfter(c, k, secrets)
    ensures !Connects(c, k, secrets) ==> SecretsAfter(c, k, secrets) == secrets
  {
  }

  /** The CA is there, every call succeeds, and a secret of that name in another namespace keeps the client away. */
  lemma NamesakeBlocks() returns (c: Cluster, k: KubeCalls, secrets: set<SecretKey>)
    ensures CallsSucceed(k) && CaKey(c) in secrets && !Connects(c, k, secrets) && SecretsAfter(c, k, secrets) == secrets
  {
    c := Cluster("prod", "main");
    k := KubeCalls(true, true, true, true, Done, true, true);
    var namesake := SecretKey("test", c.name + "-kubeconfig");
    secrets := {CaKey(c), namesake};
    assert namesake.name == KubeconfigKey(c).name && namesake.namespace != KubeconfigKey(c).namespace;
    assert CaKey(c).name[|c.name| + 1] != KubeconfigKey(c).name[|c.name| + 1];
    assert Found(c, secrets) && KubeconfigKey(c) !in secrets;
    ConnectsIff(c, k, secrets);
  }

  /** Nothing but its own kubeconfig is ever added, and only if it was missing. */
  lemma OnlyAddsKubeconfig(c: Cluster, k: KubeCalls, secrets: set<SecretKey>)
    ensures secrets <= SecretsAfter(c, k, secrets) <= secrets + {KubeconfigKey(c)}
    ensures SecretsAfter(c, k, SecretsAfter(c, k, secrets)) == SecretsAfter(c, k, secrets)
  {
  }
}
