/** A connection's networks, as routes of the tunnel's table
    (internal/adapters/openwrt/tunnel_route.go, tunnelPrefixes). */
module TunnelPrefixes {
  import opened Outcomes
  import opened Prefixes

  function Low(f: Family): Prefix { Prefix(f, 0, 1) }

  function High(f: Family): Prefix { Prefix(f, Pow2(Width(f) - 1), 1) }

  /** The networks given hold the address; an entry that does not parse holds none. */
  ghost predicate Listed(allowed: seq<Option<Prefix>>, f: Family, a: nat)
    requires Parsed(allowed)
  {
    exists x :: x in allowed && x.Some? && x.value.family == f && x.value.Contains(a)
  }

  predicate Parsed(allowed: seq<Option<Prefix>>) {
    forall i :: 0 <= i < |allowed| && allowed[i].Some? ==> allowed[i].value.Valid()
  }

  predicate Routable(out: seq<Prefix>) {
    forall p :: p in out ==> p.Valid() && p.Aligned()
  }

  ghost predicate Covers(out: seq<Prefix>, f: Family, a: nat)
    requires Routable(out)
  {
    exists p :: p in out && p.family == f && p.Contains(a)
  }

  /** The routes cover exactly the addresses of the given networks. */
  ghost predicate Exact(out: seq<Prefix>, allowed: seq<Option<Prefix>>)
    requires Routable(out) && Parsed(allowed)
  {
    forall f: Family, a: nat :: Covers(out, f, a) <==> Listed(allowed, f, a)
  }

  function Errors(allowed: seq<Option<Prefix>>): nat {
    if allowed == [] then 0
    else Errors(allowed[..|allowed|-1]) + if allowed[|allowed|-1].None? then 1 else 0
  }

  lemma HalvesAreRoutable(f: Family)
    ensures Low(f).Valid() && High(f).Valid() && Everything(f).Valid()
    ensures Low(f).Aligned() && High(f).Aligned() && Everything(f).Aligned()
  {
    var n := Pow2(Width(f) - 1);
    assert Pow2(Width(f)) == 2 * n;
    MulMod(1, n);
  }

  /** The two halves make up everything. */
  lemma HalvesMakeAll(f: Family, a: nat)
    ensures Low(f).Valid() && High(f).Valid() && Everything(f).Valid()
    ensures Everything(f).Contains(a) <==> Low(f).Contains(a) || High(f).Contains(a)
  {
    HalvesAreRoutable(f);
    AlignedInterval(Low(f), a);
    AlignedInterval(High(f), a);
    AlignedInterval(Everything(f), a);
  }

  function Drop(out: seq<Prefix>, p: Prefix, q: Prefix): (r: seq<Prefix>)
    ensures forall x :: x in r <==> x in out && x != p && x != q
  {
    if out == [] then []
    else
      assert forall x :: x in out <==> x == out[0] || x in out[1..];
      if out[0] == p || out[0] == q then Drop(out[1..], p, q)
      else [out[0]] + Drop(out[1..], p, q)
  }

  /** Writing the default route for the two halves keeps every address. */
  lemma JoinKeeps(out: seq<Prefix>, g: Family, joined: seq<Prefix>, allowed: seq<Option<Prefix>>)
    requires Routable(out) && Low(g) in out && High(g) in out && Routable(joined)
    requires joined == Drop(out, Low(g), High(g)) + if Everything(g) in out then [] else [Everything(g)]
    requires Parsed(allowed) && Exact(out, allowed)
    ensures Exact(joined, allowed)
    ensures forall p :: p in joined <==> p == Everything(g) || (p in out && p != Low(g) && p != High(g))
  {
    hide Drop, Pow2, Align;
    assert forall p :: p in joined <==> p == Everything(g) || (p in out && p != Low(g) && p != High(g));
    hide Prefix.Contains;
    forall f: Family, a: nat ensures Covers(joined, f, a) <==> Covers(out, f, a) {
      HalvesMakeAll(g, a);
      if Covers(out, f, a) {
        var p :| p in out && p.family == f && p.Contains(a);
        assert p in joined || Everything(g) in joined;
      }
    }
  }

  lemma AddNetwork(out: seq<Prefix>, allowed: seq<Option<Prefix>>, x: Option<Prefix>)
    requires Routable(out) && Parsed(allowed + [x]) && Parsed(allowed) && Exact(out, allowed)
    ensures x.None? ==> Exact(out, allowed + [x])
    ensures x.Some? ==> x.value.Valid() && Routable(out + [x.value.Masked()]) && Exact(out + [x.value.Masked()], allowed + [x])
  {
    assert (allowed + [x])[|allowed|] == x;
    var now := if x.Some? then out + [x.value.Masked()] else out;
    forall f: Family, a: nat ensures Covers(now, f, a) <==> Listed(allowed + [x], f, a) {
      assert Covers(out, f, a) <==> Listed(allowed, f, a);
      if x.Some? {
        MaskedSame(x.value, a);
      }
    }
  }

  /** The routes to write: the given networks with host bits cleared, "everything"
      written as two halves made the default route. Exactly the addresses of the
      given networks are covered, and no two halves remain to act as one. */
  method Normalize(allowed: seq<Option<Prefix>>) returns (out: seq<Prefix>, errors: nat)
    requires Parsed(allowed)
    ensures Routable(out) && Exact(out, allowed)
    ensures forall f: Family :: !(Low(f) in out && High(f) in out)
    ensures errors == Errors(allowed)
  {
    hide Exact, Drop;
    out, errors := [], 0;
    var seen: set<Prefix> := {};
    NoNetworks();
    for i := 0 to |allowed|
      invariant Routable(out) && (forall p :: p in seen <==> p in out)
      invariant errors == Errors(allowed[..i]) && Exact(out, allowed[..i])
    {
      assert allowed[..i+1] == allowed[..i] + [allowed[i]] && allowed[..i+1][..i] == allowed[..i];
      AddNetwork(out, allowed[..i], allowed[i]);
      if allowed[i].None? {
        errors := errors + 1;
      } else {
        var p := allowed[i].value.Masked();
        seen, out := seen + {p}, out + [p];
      }
    }
    assert allowed[..|allowed|] == allowed;
    hide Routable, Parsed;
    var families := [V4, V6];
    for n := 0 to |families|
      invariant Routable(out) && Exact(out, allowed)
      invariant forall p: Prefix :: n == 0 || (n == 1 && p.family == V6) ==> (p in seen <==> p in out)
      invariant n >= 1 ==> !(Low(V4) in out && High(V4) in out)
      invariant n == 2 ==> !(Low(V6) in out && High(V6) in out)
    {
      out := JoinHalves(out, seen, families[n], allowed);
    }
  }

  /** One family's halves, if both were given, become its default route. */
  method JoinHalves(given: seq<Prefix>, seen: set<Prefix>, f: Family, ghost allowed: seq<Option<Prefix>>)
    returns (out: seq<Prefix>)
    requires Routable(given) && Parsed(allowed) && Exact(given, allowed)
    requires forall p: Prefix :: p.family == f ==> (p in seen <==> p in given)
    ensures Routable(out) && Exact(out, allowed)
    ensures !(Low(f) in out && High(f) in out)
    ensures forall p: Prefix :: p.family != f ==> (p in out <==> p in given)
  {
    hide Exact, Drop;
    out := given;
    if Low(f) in seen && High(f) in seen {
      HalvesAreRoutable(f);
      out := Drop(given, Low(f), High(f)) + if Everything(f) in seen then [] else [Everything(f)];
      JoinKeeps(given, f, out, allowed);
    }
  }

  lemma NoNetworks()
    ensures Exact([], [])
  {
  }
}
