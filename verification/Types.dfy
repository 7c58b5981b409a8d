/** Values that travel between the parts of the cluster: identifiers, secrets and their
    digests, port mappings in the three shapes the program gives them, container statuses,
    and the workload specs of a heartbeat reply. */
module Types {
  datatype Option<+T> = None | Some(value: T)

  type Uuid = nat

  /** A random secret: a join token or a node credential. */
  type Token = nat

  /** What the store keeps of a secret. The hash is taken to be injective, so a digest
      is its preimage under a constructor. */
  datatype Digest = Digest(token: Token)

  type U16 = x: int | 0 <= x < 0x1_0000

  /** The runtime's port mapping. */
  datatype Port = Port(hostPort: U16, containerPort: U16, protocol: string)

  /** The wire's port mapping. */
  datatype ApiPort = ApiPort(hostPort: U16, containerPort: U16, protocol: string)

  /** The store's port mapping: both ports are plain integers. */
  datatype StorePort = StorePort(hostPort: int, containerPort: int, protocol: string)

  /** Both ports have sixteen bits. */
  predicate Fits(p: StorePort) {
    0 <= p.hostPort < 0x1_0000 && 0 <= p.containerPort < 0x1_0000
  }

  /** Pending only ever appears in the store, before the first report. */
  datatype State = Pending | Running | Stopped | Unknown

  datatype Status = Status(name: string, image: string, state: State, pid: nat, ports: seq<Port>)

  datatype WorkloadSpec = WorkloadSpec(name: string, image: string, ports: seq<ApiPort>)

  const TCP := "tcp"
  const UDP := "udp"

  /** An omitted protocol means tcp, in the store and in the network layer alike. */
  function OrTcp(protocol: string): string {
    if protocol == "" then TCP else protocol
  }

  function Last<T>(s: seq<T>): T
    requires s != []
  {
    s[|s| - 1]
  }

  function Map<T, U>(f: T -> U, s: seq<T>): (r: seq<U>)
    ensures |r| == |s| && forall i :: 0 <= i < |s| ==> r[i] == f(s[i])
  {
    seq(|s|, i requires 0 <= i < |s| => f(s[i]))
  }

  predicate Distinct<T(==)>(s: seq<T>) {
    forall i, j :: 0 <= i < j < |s| ==> s[i] != s[j]
  }

  /** fa lists the values that m gives the keys in a. */
  ghost predicate Looks<T, U>(m: map<T, U>, a: seq<T>, fa: seq<U>) {
    && |fa| == |a|
    && forall i :: 0 <= i < |a| ==> a[i] in m && fa[i] == m[a[i]]
  }

  function RemoveAt<T>(s: seq<T>, k: nat): seq<T>
    requires k < |s|
  {
    s[..k] + s[k+1..]
  }

  lemma RemoveAtMultiset<T>(s: seq<T>, k: nat)
    requires k < |s|
    ensures multiset(s) == multiset{s[k]} + multiset(RemoveAt(s, k))
  {
    assert s == s[..k] + [s[k]] + s[k+1..];
  }

  /** Looking up two repetition-free listings of one set of keys gives the same multiset. */
  lemma {:induction false} SameListing<T, U>(m: map<T, U>, a: seq<T>, fa: seq<U>, b: seq<T>, fb: seq<U>)
    requires Looks(m, a, fa) && Looks(m, b, fb)
    requires Distinct(a) && Distinct(b)
    requires forall x :: x in a <==> x in b
    ensures |a| == |b| && multiset(fa) == multiset(fb)
    decreases |a|
  {
    if |a| > 0 { assert a[0] in b; }
    if |b| > 0 { assert b[0] in a; }
    if |a| > 0 {
      assert a[0] in b;
      var k :| 0 <= k < |b| && b[k] == a[0];
      DropCommon(a, b, k);
      assert RemoveAt(a, 0) == a[1..];
      SameListing(m, RemoveAt(a, 0), RemoveAt(fa, 0), RemoveAt(b, k), RemoveAt(fb, k));
      RemoveAtMultiset(fa, 0);
      RemoveAtMultiset(fb, k);
    }
  }

  lemma DropCommon<T>(a: seq<T>, b: seq<T>, k: nat)
    requires a != [] && k < |b| && b[k] == a[0]
    requires Distinct(a) && Distinct(b)
    requires forall x :: x in a <==> x in b
    ensures Distinct(a[1..]) && Distinct(RemoveAt(b, k))
    ensures forall x :: x in a[1..] <==> x in RemoveAt(b, k)
  {
    var a', b' := a[1..], RemoveAt(b, k);
    forall x | x in a'
      ensures x in b'
    {
      assert x in b;
      var j :| 0 <= j < |b| && b[j] == x;
      assert b'[if j < k then j else j - 1] == x;
    }
    forall x | x in b'
      ensures x in a'
    {
      var j :| 0 <= j < |b'| && b'[j] == x;
      assert b[if j < k then j else j + 1] == x;
      assert x in a;
      var i :| 0 <= i < |a| && a[i] == x;
      assert a'[i-1] == x;
    }
  }
}
