/** The namespaced store key of a client's idempotency key. */
module IdempotencyKey {
  import opened Text

  datatype Namespace = Namespace(environment: string, network: string, endpoint: string)

  /** Everything in front of the client's key. */
  function Prefix(ns: Namespace): string {
    "nodus:idem:" + ns.environment + ":" + ns.network + ":" + ns.endpoint + ":"
  }

  function Key(ns: Namespace, clientKey: string): string {
    Prefix(ns) + clientKey
  }

  /** Some two client keys meet on one store key. */
  ghost predicate Collide(a: Namespace, b: Namespace) {
    exists x, y :: Key(a, x) == Key(b, y)
  }

  /** Two namespaces collide exactly when one's prefix begins with the other's. */
  lemma CollideWhenNested(a: Namespace, b: Namespace)
    ensures Collide(a, b) <==> Prefix(a) <= Prefix(b) || Prefix(b) <= Prefix(a)
  {
    var p, q := Prefix(a), Prefix(b);
    if Collide(a, b) {
      var x, y :| Key(a, x) == Key(b, y);
      if |p| <= |q| {
        assert p == (p + x)[..|p|] == (q + y)[..|p|] == q[..|p|];
      } else {
        assert q == (q + y)[..|q|] == (p + x)[..|q|] == p[..|q|];
      }
    }
    if p <= q {
      assert Key(a, q[|p|..]) == Key(b, "");
    } else if q <= p {
      assert Key(a, "") == Key(b, p[|q|..]);
    }
  }

  ghost predicate ColonFree(ns: Namespace) {
    ':' !in ns.environment && ':' !in ns.network && ':' !in ns.endpoint
  }

  /** Without colons in them, the segments can be told apart: only requests of
      one environment, network and endpoint can meet, and only under one client key. */
  lemma KeyDeterminesSegments(a: Namespace, b: Namespace, x: string, y: string)
    requires ColonFree(a) && ColonFree(b)
    ensures Key(a, x) == Key(b, y) <==> a == b && x == y
  {
    var head := "nodus:idem:";
    Layout(head, a, x);
    Layout(head, b, y);
    if Key(a, x) == Key(b, y) {
      assert Key(a, x)[|head|..] == Tail(a, x) && Key(b, y)[|head|..] == Tail(b, y);
      JoinInjective(':', a.environment, b.environment, NetworkTail(a, x), NetworkTail(b, y));
      JoinInjective(':', a.network, b.network, a.endpoint + ":" + x, b.endpoint + ":" + y);
      JoinInjective(':', a.endpoint, b.endpoint, x, y);
    }
  }

  function NetworkTail(ns: Namespace, x: string): string {
    ns.network + ":" + (ns.endpoint + ":" + x)
  }

  function Tail(ns: Namespace, x: string): string {
    ns.environment + ":" + NetworkTail(ns, x)
  }

  lemma Layout(head: string, ns: Namespace, x: string)
    requires head == "nodus:idem:"
    ensures Key(ns, x) == head + Tail(ns, x)
  {
  }

  /** The environment is free text: one that spells out another namespace
      meets it, on any network and endpoint. */
  lemma NestedEnvironmentCollides(a: Namespace, network: string, endpoint: string)
    ensures var b := Namespace(a.environment + ":" + a.network + ":" + a.endpoint, network, endpoint);
            b.environment != a.environment && Collide(a, b)
  {
    var b := Namespace(a.environment + ":" + a.network + ":" + a.endpoint, network, endpoint);
    assert Prefix(b) == Prefix(a) + (network + ":" + endpoint + ":");
    CollideWhenNested(a, b);
    assert |b.environment| > |a.environment|;
  }

  /** The store key is its six segments, in this order, joined by colons. */
  lemma KeyIsJoined(ns: Namespace, clientKey: string)
    ensures Key(ns, clientKey) == Join(["nodus", "idem", ns.environment, ns.network, ns.endpoint, clientKey], ':')
  {
    var ps := ["nodus", "idem", ns.environment, ns.network, ns.endpoint, clientKey];
    assert ps[1..][1..] == ps[2..] && ps[2..][1..] == ps[3..] && ps[3..][1..] == ps[4..] && ps[4..][1..] == ps[5..];
    assert Join(ps[5..], ':') == clientKey;
    assert Join(ps[4..], ':') == ns.endpoint + ":" + clientKey;
    assert Join(ps[3..], ':') == NetworkTail(ns, clientKey);
    assert Join(ps[2..], ':') == Tail(ns, clientKey);
    assert Join(ps[1..], ':') == "idem:" + Tail(ns, clientKey);
    Layout("nodus:idem:", ns, clientKey);
  }
}
