/** Which Ingresses make up the desired state of a group, in terms of their fields. */
module DesiredState {
  import opened SharedParams
  import opened Reconciler

  /** Not being deleted, of the group, and provisioned; an Ingress with a finalizer but no group is leaving. */
  predicate IsLive(i: Ingress, g: string) {
    !i.deleting && !(i.group == "" && i.finalizer) && i.group == g && i.originHost != ""
  }

  /** What an Ingress asks for itself: a public origin, with everything that its fields say. */
  predicate AsksFor(i: Ingress, c: CDNIngress) {
    && c.name == i.name && c.group == i.group && c.originHost == i.originHost && c.unmergedPaths == i.paths
    && c.unmergedWebACL == i.webACL && c.alternateDomains == i.alternateDomains
    && c.responseTimeout == i.responseTimeout && c.originAccess == "Public"
  }

  /** A live Ingress comes before its user-supplied origins; any other contributes nothing. */
  lemma DesiredOfOne(i: Ingress, g: string)
    ensures var cs := DesiredIngresses([i], g);
      if IsLive(i, g) then cs != [] && AsksFor(i, cs[0]) && cs[1..] == i.userOrigins else cs == []
  {
    assert [i][..0] == [];
    assert DesiredIngresses([], g) == [];
  }

  /** The contributions come in the order of the list, each as often as its Ingress. */
  lemma {:induction false} DesiredOfConcat(ingresses: seq<Ingress>, more: seq<Ingress>, g: string)
    ensures DesiredIngresses(ingresses + more, g) == DesiredIngresses(ingresses, g) + DesiredIngresses(more, g)
    decreases |more|
  {
    if more == [] {
      assert ingresses + more == ingresses;
    } else {
      var n := |more| - 1;
      assert (ingresses + more)[..|ingresses| + n] == ingresses + more[..n];
      DesiredOfConcat(ingresses, more[..n], g);
    }
  }

  predicate Contributes(i: Ingress, c: CDNIngress) {
    (AsksFor(i, c) && !c.isBeingRemoved) || c in i.userOrigins
  }

  /** Desired is exactly what live Ingresses ask for, themselves or by their user-supplied origins. */
  lemma {:induction false} DesiredMembers(ingresses: seq<Ingress>, g: string, c: CDNIngress)
    ensures c in DesiredIngresses(ingresses, g) <==> exists i :: i in ingresses && IsLive(i, g) && Contributes(i, c)
  {
    if ingresses == [] {
      assert DesiredIngresses(ingresses, g) == [];
    } else {
      var n := |ingresses| - 1;
      assert ingresses == ingresses[..n] + [ingresses[n]];
      DesiredMembers(ingresses[..n], g, c);
      DesiredOfConcat(ingresses[..n], [ingresses[n]], g);
      DesiredOfOne(ingresses[n], g);
      OneContributes(ingresses[n], g, c);
    }
  }

  lemma OneContributes(i: Ingress, g: string, c: CDNIngress)
    ensures c in DesiredIngresses([i], g) <==> IsLive(i, g) && Contributes(i, c)
  {
    assert [i][..0] == [];
    assert DesiredIngresses([], g) == [];
    var cs := DesiredIngresses([i], g);
    if IsLive(i, g) {
      assert cs == [cs[0]] + i.userOrigins;
    }
  }
}
