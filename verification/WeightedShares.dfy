/** The exclusion loop of assess_fairness_window (benchmarks/simulator/metrics.py): tenants that
    cannot reach their weighted share are dropped until every one left can. */
module WeightedShares {
  import opened Basics
  import opened Workload

  /** Why a tenant is left out of the assessment. */
  datatype Exclusion = QuotaBlocked | NotContinuouslyDemanding | ShareNotPermitted

  /** The listed tenants that belong to a set, in order; a tenant may be listed twice. */
  function Keep(listed: seq<TenantId>, chosen: set<TenantId>): seq<TenantId> {
    if listed == [] then []
    else
      var rest := Keep(listed[..|listed| - 1], chosen);
      if listed[|listed| - 1] in chosen then rest + [listed[|listed| - 1]] else rest
  }

  function TotalWeight(listed: seq<TenantId>, weights: map<TenantId, int>): int
    requires forall t :: t in listed ==> t in weights
  {
    if listed == [] then 0
    else
      var t := listed[|listed| - 1];
      assert t in listed;
      TotalWeight(listed[..|listed| - 1], weights) + weights[t]
  }

  /** A tenant's part of the total weight is more than the largest share it can hold. */
  predicate Limited(share: real, weight: int, total: int)
    requires total > 0
  {
    share < weight as real / total as real
  }

  ghost predicate Priced(listed: seq<TenantId>, shares: map<TenantId, real>, weights: map<TenantId, int>) {
    forall t :: t in listed ==> t in shares && t in weights && weights[t] > 0
  }

  lemma {:induction false} KeepMember(listed: seq<TenantId>, chosen: set<TenantId>)
    ensures forall t :: t in Keep(listed, chosen) <==> t in listed && t in chosen
  {
    if listed != [] {
      KeepMember(listed[..|listed| - 1], chosen);
      assert listed == listed[..|listed| - 1] + [listed[|listed| - 1]];
    }
  }

  /** Every tenant of the set can reach its weighted share within the set, and at least two
      list entries are left. */
  ghost predicate Sustains(listed: seq<TenantId>, shares: map<TenantId, real>, weights: map<TenantId, int>,
                           chosen: set<TenantId>)
    requires Priced(listed, shares, weights)
  {
    && |Keep(listed, chosen)| >= 2
    && (KeepMember(listed, chosen); NoneLimited(Keep(listed, chosen), shares, weights))
  }

  ghost predicate NoneLimited(included: seq<TenantId>, shares: map<TenantId, real>, weights: map<TenantId, int>)
    requires Priced(included, shares, weights)
  {
    WeightPositive(included, weights);
    forall t :: t in included ==> !Limited(shares[t], weights[t], TotalWeight(included, weights))
  }

  lemma {:induction false} WeightPositive(listed: seq<TenantId>, weights: map<TenantId, int>)
    requires forall t :: t in listed ==> t in weights && weights[t] > 0
    ensures TotalWeight(listed, weights) >= |listed|
  {
    if listed != [] {
      var t := listed[|listed| - 1];
      assert t in listed;
      WeightPositive(listed[..|listed| - 1], weights);
    }
  }

  /** A larger set keeps more entries and has more weight. */
  lemma {:induction false} KeepGrows(listed: seq<TenantId>, weights: map<TenantId, int>, less: set<TenantId>,
                                     more: set<TenantId>)
    requires forall t :: t in listed ==> t in weights && weights[t] > 0
    requires forall t :: t in listed && t in less ==> t in more
    ensures |Keep(listed, less)| <= |Keep(listed, more)|
    ensures forall t :: t in Keep(listed, less) || t in Keep(listed, more) ==> t in weights
    ensures TotalWeight(Keep(listed, less), weights) <= TotalWeight(Keep(listed, more), weights)
  {
    KeepMember(listed, less);
    KeepMember(listed, more);
    if listed != [] {
      var n := |listed| - 1;
      var t := listed[n];
      KeepGrows(listed[..n], weights, less, more);
      var a, b := Keep(listed[..n], less), Keep(listed[..n], more);
      assert (a + [t])[..|a|] == a && (b + [t])[..|b|] == b;
    }
  }

  lemma {:induction false} KeepMinus(listed: seq<TenantId>, chosen: set<TenantId>, dropped: set<TenantId>)
    ensures Keep(Keep(listed, chosen), chosen - dropped) == Keep(listed, chosen - dropped)
  {
    if listed != [] {
      var n := |listed| - 1;
      var t := listed[n];
      KeepMinus(listed[..n], chosen, dropped);
      var rest := Keep(listed[..n], chosen);
      assert (rest + [t])[..|rest|] == rest;
    }
  }

  lemma {:induction false} KeepAll(listed: seq<TenantId>, chosen: set<TenantId>)
    requires forall t :: t in listed ==> t in chosen
    ensures Keep(listed, chosen) == listed
  {
    if listed != [] {
      var t := listed[|listed| - 1];
      assert t in listed;
      KeepAll(listed[..|listed| - 1], chosen);
      assert listed == listed[..|listed| - 1] + [listed[|listed| - 1]];
    }
  }

  /** With less total weight a tenant's part is larger, so what is limited stays limited. */
  lemma StillLimited(share: real, weight: int, total: int, total': int)
    requires 0 < total' <= total && weight > 0 && Limited(share, weight, total)
    ensures Limited(share, weight, total')
  {
    var w, a, b := weight as real, total' as real, total as real;
    var p, q := w / a, w / b;
    assert p * a == w && q * b == w;
    assert q * a <= q * b by {
      assert q * (b - a) >= 0.0;
    }
    Cancel(q, p, a);
  }

  /** A tenant limited within a larger set belongs to no sustaining smaller one. */
  lemma NeverSustained(listed: seq<TenantId>, shares: map<TenantId, real>, weights: map<TenantId, int>,
                       more: set<TenantId>, less: set<TenantId>, t: TenantId)
    requires Priced(listed, shares, weights) && Sustains(listed, shares, weights, less)
    requires forall u :: u in listed && u in less ==> u in more
    requires t in listed
    requires Priced(Keep(listed, more), shares, weights) && TotalWeight(Keep(listed, more), weights) > 0
    requires Limited(shares[t], weights[t], TotalWeight(Keep(listed, more), weights))
    ensures t !in less
  {
    hide Limited;
    KeepMember(listed, less);
    KeepGrows(listed, weights, less, more);
    WeightPositive(Keep(listed, less), weights);
    StillLimited(shares[t], weights[t], TotalWeight(Keep(listed, more), weights),
                 TotalWeight(Keep(listed, less), weights));
    if t in less {
      assert false;
    }
  }

  function LimitedAmong(included: seq<TenantId>, shares: map<TenantId, real>, weights: map<TenantId, int>,
                        total: int): seq<TenantId>
    requires Priced(included, shares, weights) && total > 0
  {
    if included == [] then []
    else
      var t := included[|included| - 1];
      var rest := LimitedAmong(included[..|included| - 1], shares, weights, total);
      if Limited(shares[t], weights[t], total) then rest + [t] else rest
  }

  lemma {:induction false} LimitedMember(included: seq<TenantId>, shares: map<TenantId, real>,
                                         weights: map<TenantId, int>, total: int)
    requires Priced(included, shares, weights) && total > 0
    ensures forall t :: t in LimitedAmong(included, shares, weights, total) <==>
              t in included && Limited(shares[t], weights[t], total)
  {
    hide Limited;
    if included != [] {
      var n := |included| - 1;
      LimitedMember(included[..n], shares, weights, total);
      assert included == included[..n] + [included[n]];
    }
  }

  /** Every sustaining set lies inside this one. */
  ghost predicate Bounds(listed: seq<TenantId>, shares: map<TenantId, real>, weights: map<TenantId, int>,
                         kept: set<TenantId>)
    requires Priced(listed, shares, weights)
  {
    forall chosen :: Sustains(listed, shares, weights, chosen) ==> forall t :: t in listed && t in chosen ==> t in kept
  }

  lemma DropKeepsBound(listed: seq<TenantId>, shares: map<TenantId, real>, weights: map<TenantId, int>,
                       kept: set<TenantId>, included: seq<TenantId>, dropped: set<TenantId>)
    requires Priced(listed, shares, weights) && Bounds(listed, shares, weights, kept)
    requires included == Keep(listed, kept) && Priced(included, shares, weights) && TotalWeight(included, weights) > 0
    requires forall t :: t in dropped ==>
               t in included && Limited(shares[t], weights[t], TotalWeight(included, weights))
    ensures Bounds(listed, shares, weights, kept - dropped)
  {
    hide Limited;
    hide Sustains;
    KeepMember(listed, kept);
    forall chosen, t | Sustains(listed, shares, weights, chosen) && t in listed && t in chosen
      ensures t in kept - dropped
    {
      if t in dropped {
        NeverSustained(listed, shares, weights, kept, chosen, t);
        assert false;
      }
    }
  }

  lemma Stable(listed: seq<TenantId>, shares: map<TenantId, real>, weights: map<TenantId, int>, kept: set<TenantId>)
    requires Priced(listed, shares, weights) && |Keep(listed, kept)| >= 2
    requires Priced(Keep(listed, kept), shares, weights) && NoneLimited(Keep(listed, kept), shares, weights)
    ensures Sustains(listed, shares, weights, kept)
  {
  }

  function Without(listed: seq<TenantId>, dropped: set<TenantId>): seq<TenantId> {
    if listed == [] then []
    else
      var rest := Without(listed[..|listed| - 1], dropped);
      if listed[|listed| - 1] !in dropped then rest + [listed[|listed| - 1]] else rest
  }

  lemma {:induction false} WithoutIsKeep(listed: seq<TenantId>, chosen: set<TenantId>, dropped: set<TenantId>)
    requires forall t :: t in listed ==> t in chosen
    ensures Without(listed, dropped) == Keep(listed, chosen - dropped)
  {
    if listed != [] {
      var t := listed[|listed| - 1];
      assert t in listed;
      WithoutIsKeep(listed[..|listed| - 1], chosen, dropped);
    }
  }

  lemma {:induction false} Shrinks(listed: seq<TenantId>, dropped: set<TenantId>, t: TenantId)
    requires t in listed && t in dropped
    ensures |Without(listed, dropped)| < |listed|
  {
    var n := |listed| - 1;
    if listed[n] != t {
      assert listed == listed[..n] + [listed[n]];
      Shrinks(listed[..n], dropped, t);
    } else {
      NoLonger(listed[..n], dropped);
    }
  }

  lemma {:induction false} NoLonger(listed: seq<TenantId>, dropped: set<TenantId>)
    ensures |Without(listed, dropped)| <= |listed|
  {
    if listed != [] {
      NoLonger(listed[..|listed| - 1], dropped);
    }
  }

  method Exclude(exclusions: map<TenantId, Exclusion>, limited: seq<TenantId>)
    returns (excluded: map<TenantId, Exclusion>)
    ensures excluded == exclusions + map t | t in limited :: ShareNotPermitted
  {
    excluded := exclusions;
    for i := 0 to |limited|
      invariant excluded == exclusions + map t | t in limited[..i] :: ShareNotPermitted
    {
      assert limited[..i + 1] == limited[..i] + [limited[i]];
      excluded := excluded[limited[i] := ShareNotPermitted];
    }
    assert limited[..|limited|] == limited;
  }

  function Marked(exclusions: map<TenantId, Exclusion>, listed: seq<TenantId>,
                  kept: set<TenantId>): map<TenantId, Exclusion> {
    exclusions + map t | t in listed && t !in kept :: ShareNotPermitted
  }

  lemma MarkMore(exclusions: map<TenantId, Exclusion>, listed: seq<TenantId>, kept: set<TenantId>,
                 limited: seq<TenantId>)
    requires forall t :: t in limited ==> t in listed && t in kept
    ensures Marked(exclusions, listed, kept) + (map t | t in limited :: ShareNotPermitted)
            == Marked(exclusions, listed, kept - Elements(limited))
  {
    var a := Marked(exclusions, listed, kept) + (map t | t in limited :: ShareNotPermitted);
    var b := Marked(exclusions, listed, kept - Elements(limited));
    forall t ensures (t in a <==> t in b) && (t in a ==> a[t] == b[t]) {
      assert t in limited <==> t in Elements(limited);
    }
    assert a == b;
  }

  lemma StartBounds(listed: seq<TenantId>, shares: map<TenantId, real>, weights: map<TenantId, int>,
                    exclusions: map<TenantId, Exclusion>)
    requires Priced(listed, shares, weights)
    ensures Bounds(listed, shares, weights, Elements(listed))
    ensures Marked(exclusions, listed, Elements(listed)) == exclusions
  {
  }

  /** If fewer than two entries are left, no set of the listed tenants sustains its shares. */
  lemma FewerMeansNone(listed: seq<TenantId>, shares: map<TenantId, real>, weights: map<TenantId, int>,
                       kept: set<TenantId>, chosen: set<TenantId>)
    requires Priced(listed, shares, weights) && Bounds(listed, shares, weights, kept) && |Keep(listed, kept)| < 2
    ensures !Sustains(listed, shares, weights, chosen)
  {
    if Sustains(listed, shares, weights, chosen) {
      KeepGrows(listed, weights, chosen, kept);
      assert false;
    }
  }

  /** The exclusion loop. Among all subsets of the listed tenants that can sustain their
      weighted shares, the result is the greatest; fewer than two remain only if there is none. */
  method Eliminate(listed: seq<TenantId>, shares: map<TenantId, real>, weights: map<TenantId, int>,
                   exclusions: map<TenantId,
                     Exclusion>) returns (included: seq<TenantId>, excluded: map<TenantId, Exclusion>)
    requires Priced(listed, shares, weights)
    ensures included == Keep(listed, Elements(included)) && Elements(included) <= Elements(listed)
    ensures |included| >= 2 ==> Sustains(listed, shares, weights, Elements(included))
    ensures Bounds(listed, shares, weights, Elements(included))
    ensures excluded == Marked(exclusions, listed, Elements(included))
  {
    hide Marked;
    hide Bounds;
    hide Limited;
    hide Sustains;
    hide Keep;
    included := listed;
    excluded := exclusions;
    ghost var kept := Elements(listed);
    KeepAll(listed, kept);
    StartBounds(listed, shares, weights, exclusions);
    while |included| >= 2
      invariant kept <= Elements(listed) && included == Keep(listed, kept)
      invariant Bounds(listed, shares, weights, kept)
      invariant excluded == Marked(exclusions, listed, kept)
      decreases |included|
    {
      KeepMember(listed, kept);
      WeightPositive(included, weights);
      var total := TotalWeight(included, weights);
      var limited := LimitedAmong(included, shares, weights, total);
      LimitedMember(included, shares, weights, total);
      if limited == [] {
        Stable(listed, shares, weights, kept);
        break;
      }
      MarkMore(exclusions, listed, kept, limited);
      excluded := Exclude(excluded, limited);
      var dropped := Elements(limited);
      DropKeepsBound(listed, shares, weights, kept, included, dropped);
      assert limited[0] in limited;
      Shrinks(included, dropped, limited[0]);
      KeepMinus(listed, kept, dropped);
      included := Without(included, dropped);
      WithoutIsKeep(Keep(listed, kept), kept, dropped);
      kept := kept - dropped;
    }
    KeepMember(listed, kept);
    assert forall t :: t in Elements(included) <==> t in kept;
    assert Elements(included) == kept;
  }
}
