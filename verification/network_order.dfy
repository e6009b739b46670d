/** What the visiting order of fragments can change in a rebuilt network (src/state.rs). */
module NetworkOrder {
  import opened GridErrors
  import opened KeyOrder
  import opened Networks

  // ---- The header ----

  /** The header of a network. It is taken from the fragment visited first; the range is the first that
      is not empty. */
  function Header(z: ZNet): ZNet {
    z.(nodes := [], nodesIpRange := map[], myceliumKeys := map[], keys := map[], wgPort := map[],
       nodeDeploymentId := map[])
  }

  lemma {:induction false} HeaderIsFirst(found: seq<Found>)
    requires found != []
    ensures Header(MergeAll(found)).(ipRange := "") == Header(found[0].net).(ipRange := "")
    ensures found[0].net.ipRange != "" ==> MergeAll(found).ipRange == found[0].net.ipRange
    decreases |found|
  {
    if |found| > 1 { HeaderIsFirst(found[..|found| - 1]); }
  }

  /** The header is the same for all fragments, but for a range that some may leave empty. */
  ghost predicate HeadersAgree(found: seq<Found>) {
    forall f, g :: f in found && g in found ==>
      && Header(f.net).(ipRange := "") == Header(g.net).(ipRange := "")
      && (f.net.ipRange == "" || g.net.ipRange == "" || f.net.ipRange == g.net.ipRange)
  }

  lemma {:induction false} RangeIsTheCommonOne(found: seq<Found>, r: string)
    requires found != [] && forall f :: f in found ==> f.net.ipRange == "" || f.net.ipRange == r
    ensures MergeAll(found).ipRange == if exists f :: f in found && f.net.ipRange == r then r else ""
    decreases |found|
  {
    var before, last := found[..|found| - 1], found[|found| - 1];
    assert last in found;
    if |found| > 1 {
      RangeIsTheCommonOne(before, r);
      assert forall f :: f in found <==> f in before || f == last;
    }
  }

  lemma RangeIsConfluent(found: seq<Found>, other: seq<Found>)
    requires found != [] && other != [] && HeadersAgree(found) && forall f :: f in found <==> f in other
    ensures MergeAll(found).ipRange == MergeAll(other).ipRange
  {
    hide Header;
    var r := "";
    if f :| f in found && f.net.ipRange != "" { r := f.net.ipRange; }
    RangeIsTheCommonOne(found, r);
    RangeIsTheCommonOne(other, r);
  }

  lemma {:induction false} EndpointIsPublicNodes(found: seq<Found>, f: Found)
    requires OwnAndApart(found) && f in found && f.endpoint.Some?
    requires forall g :: g in found ==> g.net.publicNodeId == f.node
    ensures PublicEndpoint(found) == f.endpoint.value
    decreases |found|
  {
    var last := found[|found| - 1];
    assert last in found;
    if last.endpoint.Some? {
      assert last.node == f.node;
      var i :| 0 <= i < |found| && found[i] == f;
      assert i == |found| - 1;
    } else {
      EndpointIsPublicNodes(found[..|found| - 1], f);
    }
  }

  lemma {:induction false} NoEndpoint(found: seq<Found>)
    requires forall f :: f in found ==> f.endpoint == None
    ensures PublicEndpoint(found) == ""
    decreases |found|
  {
    if found != [] { NoEndpoint(found[..|found| - 1]); }
  }

  lemma EndpointIsConfluent(found: seq<Found>, other: seq<Found>)
    requires OwnAndApart(found) && OwnAndApart(other) && forall f :: f in found <==> f in other
    requires forall f, g :: f in found && g in found ==> f.net.publicNodeId == g.net.publicNodeId
    ensures PublicEndpoint(found) == PublicEndpoint(other)
  {
    if f :| f in found && f.endpoint.Some? {
      EndpointIsPublicNodes(found, f);
      EndpointIsPublicNodes(other, f);
    } else {
      NoEndpoint(found);
      NoEndpoint(other);
    }
  }

  /** When the headers agree, loading gives the same network, or the same failure, in any order - up to
      the order of the node list. */
  lemma AgreeingHeadersAreConfluent(view: View, found: seq<Found>, other: seq<Found>)
    requires found != [] && OwnAndApart(found) && OwnAndApart(other) && forall f :: f in found <==> f in other
    requires HeadersAgree(found)
    ensures var (x, y) := (Rebuild(view, found), Rebuild(view, other));
            && (x.Err? ==> y == x)
            && (x.Ok? ==> y.Ok? && y.value == x.value.(nodes := y.value.nodes)
                          && multiset(y.value.nodes) == multiset(x.value.nodes))
  {
    MergeIsConfluent(found, other);
    assert found[0] in other && other[0] in found;
    PublicNodesAgree(found);
    HeaderIsFirst(found);
    HeaderIsFirst(other);
    RangeIsConfluent(found, other);
    EndpointIsConfluent(found, other);
    hide HeadersAgree;
    assert Header(MergeAll(found)) == Header(MergeAll(other));
    hide MergeAll, Deployments, PublicEndpoint, OwnAndApart;
    FinishIgnoresNodeOrder(view, MergeAll(found).(nodeDeploymentId := Deployments(found)),
                           MergeAll(other).(nodeDeploymentId := Deployments(other)), PublicEndpoint(found));
  }

  lemma PublicNodesAgree(found: seq<Found>)
    requires HeadersAgree(found)
    ensures forall f, g :: f in found && g in found ==> f.net.publicNodeId == g.net.publicNodeId
  {
    forall f, g | f in found && g in found ensures f.net.publicNodeId == g.net.publicNodeId {
      assert Header(f.net).(ipRange := "").publicNodeId == Header(g.net).(ipRange := "").publicNodeId;
    }
  }

  lemma FinishIgnoresNodeOrder(view: View, z: ZNet, y: ZNet, endpoint: string)
    requires y == z.(nodes := y.nodes)
    ensures var (a, b) := (Finish(view, z, endpoint), Finish(view, y, endpoint));
            && (a.Err? ==> b == a)
            && (a.Ok? ==> && b.Ok? && b.value == a.value.(nodes := y.nodes)
                          && a.value.nodes == z.nodes && b.value.nodes == y.nodes)
  {
  }

  // ---- Whether an order fails ----

  /** The fragment's header asks for access, and no fragment has a port for its public node. */
  ghost predicate LacksPort(view: View, found: seq<Found>, f: Found) {
    && f.net.addWgAccess && f.net.externalIp.Some? && view.wgIp(f.net.externalIp.value).Some?
    && forall g :: g in found ==> f.net.publicNodeId !in g.net.wgPort
  }

  /** One order fails exactly when the fragment visited first lacks a port and the endpoint visited last,
      if any, is not empty. */
  lemma FailsIffFirstLacksPort(view: View, found: seq<Found>)
    requires found != [] && OwnAndApart(found)
    ensures Rebuild(view, found).Err? <==> LacksPort(view, found, found[0]) && PublicEndpoint(found) != ""
  {
    HeaderIsFirst(found);
    MergeIsUnion(found);
    UnionByNode(found, PortOf);
    hide MergeAll, Union;
    var merged, first := Header(MergeAll(found)).(ipRange := ""), Header(found[0].net).(ipRange := "");
    assert merged.publicNodeId == MergeAll(found).publicNodeId && first.publicNodeId == found[0].net.publicNodeId;
    assert merged.addWgAccess == MergeAll(found).addWgAccess && first.addWgAccess == found[0].net.addWgAccess;
    assert merged.externalIp == MergeAll(found).externalIp && first.externalIp == found[0].net.externalIp;
  }

  // ---- Whether the order matters ----

  /** Another order of the same fragments. */
  ghost predicate Reorders(found: seq<Found>, order: seq<Found>) {
    OwnAndApart(order) && forall f :: f in order <==> f in found
  }

  predicate HasEndpoint(f: Found) {
    f.endpoint.Some? && f.endpoint.value != ""
  }

  lemma {:induction false} LastEndpointDecides(found: seq<Found>)
    ensures PublicEndpoint(found) != "" ==> exists f :: f in found && HasEndpoint(f)
    ensures PublicEndpoint(found) == "" ==>
              (forall f :: f in found ==> f.endpoint == None) || exists f :: f in found && f.endpoint == Some("")
    ensures found != [] && found[|found| - 1].endpoint.Some? ==>
              PublicEndpoint(found) == found[|found| - 1].endpoint.value
    decreases |found|
  {
    if found != [] {
      var before, last := found[..|found| - 1], found[|found| - 1];
      LastEndpointDecides(before);
      assert last in found && forall f :: f in before ==> f in found;
      assert forall f :: f in found ==> f in before || f == last;
    }
  }

  /** Moves one fragment to the front. */
  lemma ToFront(found: seq<Found>, first: Found) returns (order: seq<Found>)
    requires OwnAndApart(found) && first in found
    ensures Reorders(found, order) && order != [] && order[0] == first
  {
    hide OwnOnly;
    var i :| 0 <= i < |found| && found[i] == first;
    order := [first] + (found[..i] + found[i + 1..]);
    forall f | f in found ensures f in order {
      var j :| 0 <= j < |found| && found[j] == f;
      if j < i { assert order[j + 1] == f; } else if j > i { assert order[j] == f; }
    }
  }

  lemma ToBack(found: seq<Found>, last: Found) returns (order: seq<Found>)
    requires OwnAndApart(found) && last in found
    ensures Reorders(found, order) && order != [] && order[|order| - 1] == last
    ensures found[0] != last ==> order[0] == found[0]
  {
    hide OwnOnly;
    var i :| 0 <= i < |found| && found[i] == last;
    order := found[..i] + found[i + 1..] + [last];
    forall f | f in found ensures f in order {
      var j :| 0 <= j < |found| && found[j] == f;
      if j < i { assert order[j] == f; } else if j > i { assert order[j - 1] == f; }
    }
  }

  /** Moves one fragment to the front and, if it is another one, a second to the back. */
  lemma Rearranged(found: seq<Found>, first: Found, last: Found) returns (order: seq<Found>)
    requires OwnAndApart(found) && first in found && last in found
    ensures Reorders(found, order) && order != [] && order[0] == first
    ensures first != last ==> order[|order| - 1] == last
  {
    order := ToFront(found, first);
    if first != last { order := ToBack(order, last); }
  }

  /** A fragment that makes some order fail: it lacks a port, and an endpoint that is not empty can come
      last - one of another fragment, or its own when no other has any. */
  ghost predicate CanFail(view: View, found: seq<Found>, f: Found) {
    && LacksPort(view, found, f)
    && ((exists g :: g in found && g != f && HasEndpoint(g))
        || (HasEndpoint(f) && forall g :: g in found && g != f ==> g.endpoint == None))
  }

  /** Some order loads: a fragment does not lack a port, or an empty endpoint can come last, or there is none. */
  ghost predicate CanLoad(view: View, found: seq<Found>) {
    || (exists f :: f in found && !LacksPort(view, found, f))
    || (exists f :: f in found && f.endpoint == Some(""))
    || (forall f :: f in found ==> f.endpoint == None)
  }

  lemma LacksPortIgnoresOrder(view: View, found: seq<Found>, order: seq<Found>, f: Found)
    requires Reorders(found, order)
    ensures LacksPort(view, order, f) <==> LacksPort(view, found, f)
  {
    hide OwnAndApart;
  }

  lemma {:induction false} OnlyEndpoint(found: seq<Found>, f: Found)
    requires f in found && f.endpoint.Some? && forall g :: g in found && g != f ==> g.endpoint == None
    ensures PublicEndpoint(found) == f.endpoint.value
    decreases |found|
  {
    var before, last := found[..|found| - 1], found[|found| - 1];
    assert last in found;
    if last != f {
      assert f in before;
      OnlyEndpoint(before, f);
    }
  }

  lemma SomeOrderFailsIff(view: View, found: seq<Found>)
    requires found != [] && OwnAndApart(found)
    ensures (exists order :: Reorders(found, order) && Rebuild(view, order).Err?)
       <==> exists f :: f in found && CanFail(view, found, f)
  {
    hide Rebuild, PublicEndpoint, LacksPort, OwnAndApart;
    if order :| Reorders(found, order) && Rebuild(view, order).Err? {
      assert found[0] in order;
      FailsIffFirstLacksPort(view, order);
      LacksPortIgnoresOrder(view, found, order, order[0]);
      assert order[0] in order && order[0] in found;
      LastEndpointDecides(order);
      FirstCanFail(view, found, order);
    }
    if f :| f in found && CanFail(view, found, f) {
      var order: seq<Found>;
      if g :| g in found && g != f && HasEndpoint(g) {
        order := Rearranged(found, f, g);
        LastEndpointDecides(order);
      } else {
        order := Rearranged(found, f, f);
        OnlyEndpoint(order, f);
      }
      FailsIffFirstLacksPort(view, order);
      LacksPortIgnoresOrder(view, found, order, f);
      assert Rebuild(view, order).Err?;
    }
  }

  lemma FirstCanFail(view: View, found: seq<Found>, order: seq<Found>)
    requires Reorders(found, order) && order != [] && LacksPort(view, found, order[0]) && PublicEndpoint(order) != ""
    ensures CanFail(view, found, order[0])
  {
    hide LacksPort;
    var f := order[0];
    LastEndpointDecides(order);
    if !exists g :: g in found && g != f && HasEndpoint(g) {
      var g :| g in order && HasEndpoint(g);
      assert g == f;
      forall h | h in found && h != f ensures h.endpoint == None {
        if h.endpoint.Some? { EmptyEndpointWins(order, f, h); }
      }
    }
  }

  /** With nothing but empty endpoints after the first fragment, the last one is empty. */
  lemma {:induction false} EmptyEndpointWins(order: seq<Found>, f: Found, h: Found)
    requires order != [] && order[0] == f && h in order && h != f && h.endpoint.Some?
    requires forall i :: 0 < i < |order| ==> !HasEndpoint(order[i])
    ensures PublicEndpoint(order) == ""
    decreases |order|
  {
    var before, last := order[..|order| - 1], order[|order| - 1];
    assert |order| > 1;
    if last.endpoint == None {
      assert h in before;
      EmptyEndpointWins(before, f, h);
    }
  }

  lemma SomeOrderLoadsIff(view: View, found: seq<Found>)
    requires found != [] && OwnAndApart(found)
    ensures (exists order :: Reorders(found, order) && Rebuild(view, order).Ok?) <==> CanLoad(view, found)
  {
    hide Rebuild, PublicEndpoint, LacksPort, OwnAndApart;
    if order :| Reorders(found, order) && Rebuild(view, order).Ok? {
      assert found[0] in order;
      FailsIffFirstLacksPort(view, order);
      LacksPortIgnoresOrder(view, found, order, order[0]);
      assert order[0] in order && order[0] in found;
      LastEndpointDecides(order);
    }
    if CanLoad(view, found) {
      var order: seq<Found>;
      if f :| f in found && !LacksPort(view, found, f) {
        order := Rearranged(found, f, f);
        LacksPortIgnoresOrder(view, found, order, f);
      } else if f :| f in found && f.endpoint == Some("") {
        assert found[0] in found;
        order := Rearranged(found, found[0], f);
        if f == found[0] && |found| > 1 {
          assert found[1] in found;
          order := Rearranged(found, found[1], f);
          hide Reorders;
          assert found[1] != f by { TwoAreApart(found); }
        }
        LoneLast(found, order, f);
        LastEndpointDecides(order);
      } else {
        order := found;
        NoEndpoint(found);
        assert Reorders(found, order);
      }
      FailsIffFirstLacksPort(view, order);
      assert Rebuild(view, order).Ok?;
    }
  }

  lemma TwoAreApart(found: seq<Found>)
    requires OwnAndApart(found) && |found| > 1
    ensures found[0] != found[1]
  {
    assert found[0].node != found[1].node;
  }

  lemma LoneLast(found: seq<Found>, order: seq<Found>, f: Found)
    requires Reorders(found, order) && order != [] && found != []
    requires |found| == 1 ==> f == found[0]
    requires |found| > 1 ==> order[|order| - 1] == f
    ensures order[|order| - 1] == f
  {
    hide OwnAndApart;
    assert order[|order| - 1] in order;
  }

  /** Every order fails or loads alike exactly when the fragments cannot do both - a condition on the
      fragments alone. */
  lemma OrderNeverMattersIff(view: View, found: seq<Found>)
    requires found != [] && OwnAndApart(found)
    ensures (forall order :: Reorders(found, order) ==> (Rebuild(view, order).Ok? <==> Rebuild(view, found).Ok?))
       <==> !(CanLoad(view, found) && exists f :: f in found && CanFail(view, found, f))
  {
    hide Rebuild, OwnAndApart, CanLoad, CanFail;
    SomeOrderFailsIff(view, found);
    SomeOrderLoadsIff(view, found);
    assert Reorders(found, found);
  }

  /** The same network up to the order of its node list, or a failure both times. */
  ghost predicate SameNetwork(x: Result<ZNet>, y: Result<ZNet>) {
    && (x.Ok? <==> y.Ok?)
    && (x.Ok? ==> y.value == x.value.(nodes := y.value.nodes) && multiset(y.value.nodes) == multiset(x.value.nodes))
  }

  /** A loaded network shows the header of the fragment visited first. */
  lemma LoadShowsFirst(view: View, order: seq<Found>)
    requires order != [] && Rebuild(view, order).Ok?
    ensures var z, first := Rebuild(view, order).value, order[0].net;
            && Header(z).(ipRange := "", accessWgConfig := "") == Header(first).(ipRange := "", accessWgConfig := "")
            && (first.ipRange != "" ==> z.ipRange == first.ipRange)
  {
    HeaderIsFirst(order);
    hide MergeAll, Deployments, PublicEndpoint, GivesAccess;
    var m := MergeAll(order);
    var y := order[0].net;
    assert Header(m).(ipRange := "").(accessWgConfig := "") == Header(y).(ipRange := "").(accessWgConfig := "");
  }

  lemma FirstsShowAlike(view: View, found: seq<Found>, f: Found, g: Found)
    requires found != [] && OwnAndApart(found) && f in found && g in found && Rebuild(view, found).Ok?
    requires forall order :: Reorders(found, order) ==> SameNetwork(Rebuild(view, found), Rebuild(view, order))
    ensures Header(f.net).(ipRange := "") == Header(g.net).(ipRange := "")
    ensures f.net.ipRange == "" || g.net.ipRange == "" || f.net.ipRange == g.net.ipRange
  {
    hide Rebuild;
    assert OwnOnly(f) && OwnOnly(g);
    var one := ToFront(found, f);
    var two := ToFront(found, g);
    LoadShowsFirst(view, one);
    LoadShowsFirst(view, two);
    hide Reorders, OwnAndApart, OwnOnly;
    var x, y := Rebuild(view, one).value, Rebuild(view, two).value;
    assert x.(nodes := []) == y.(nodes := []);
    assert Header(x) == Header(y);
    assert Header(f.net).accessWgConfig == "" && Header(g.net).accessWgConfig == "";
    assert Header(f.net).(ipRange := "") == Header(f.net).(ipRange := "", accessWgConfig := "");
    assert Header(g.net).(ipRange := "") == Header(g.net).(ipRange := "", accessWgConfig := "");
  }

  /** The whole network is the same in every order exactly when the headers agree or no order loads. */
  lemma WholeNetworkIsConfluentIff(view: View, found: seq<Found>)
    requires found != [] && OwnAndApart(found)
    ensures (forall order :: Reorders(found, order) ==> SameNetwork(Rebuild(view, found), Rebuild(view, order)))
       <==> HeadersAgree(found) || !CanLoad(view, found)
  {
    hide Rebuild, OwnAndApart, CanLoad;
    SomeOrderLoadsIff(view, found);
    assert Reorders(found, found);
    if HeadersAgree(found) {
      hide HeadersAgree;
      forall order | Reorders(found, order) ensures SameNetwork(Rebuild(view, found), Rebuild(view, order)) {
        AgreeingHeadersAreConfluent(view, found, order);
      }
    } else if && CanLoad(view, found)
              && forall order :: Reorders(found, order) ==> SameNetwork(Rebuild(view, found), Rebuild(view, order))
    {
      forall f, g | f in found && g in found
        ensures && Header(f.net).(ipRange := "") == Header(g.net).(ipRange := "")
                && (f.net.ipRange == "" || g.net.ipRange == "" || f.net.ipRange == g.net.ipRange)
      {
        FirstsShowAlike(view, found, f, g);
      }
      assert false;
    }
  }

  /** The first fragment alone does not decide: among three nodes, with the same one first, an empty
      endpoint visited last loads and a real one fails. */
  lemma LaterOrderDecidesToo(view: View, a: Found, b: Found, c: Found)
    requires OwnAndApart([a, b, c]) && LacksPort(view, [a, b, c], a)
    requires a.endpoint == None && b.endpoint == Some("") && HasEndpoint(c)
    ensures Rebuild(view, [a, b, c]).Err? && Rebuild(view, [a, c, b]).Ok?
  {
    var abc, acb := [a, b, c], [a, c, b];
    assert abc[..2] == [a, b] && acb[..2] == [a, c];
    assert OwnAndApart(acb) by {
      assert abc[0].node != abc[1].node && abc[0].node != abc[2].node && abc[1].node != abc[2].node;
      assert forall f :: f in acb ==> f in abc;
    }
    assert PublicEndpoint(abc) == c.endpoint.value && PublicEndpoint(acb) == "";
    hide Rebuild, PublicEndpoint, OwnAndApart;
    FailsIffFirstLacksPort(view, abc);
    FailsIffFirstLacksPort(view, acb);
  }

  /** One node wanting access without a port, and one not wanting any, load in one order and fail in the
      other. */
  lemma OrderDecidesOutcome(view: View, a: Found, b: Found)
    requires OwnOnly(a) && OwnOnly(b) && a.node != b.node
    requires a.endpoint.Some? && GivesAccess(view, a.net, a.endpoint.value) && a.net.wgPort == map[]
    requires b.endpoint == None && !b.net.addWgAccess && a.net.publicNodeId !in b.net.wgPort
    ensures Rebuild(view, [a, b]).Err? && Rebuild(view, [b, a]).Ok?
  {
    assert [a, b][..1] == [a] && [b, a][..1] == [b] && [a][..0] == [];
    assert PublicEndpoint([a]) == a.endpoint.value;
    assert PublicEndpoint([a, b]) == PublicEndpoint([a]);
    hide Rebuild, PublicEndpoint, OwnOnly;
    FailsIffFirstLacksPort(view, [a, b]);
    FailsIffFirstLacksPort(view, [b, a]);
  }
}
