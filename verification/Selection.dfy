/** select_upstream_candidate (src-core/src/requests.rs:1336-1403) and account_matches_constraints. */
module Selection {
  import opened Basics
  import opened States
  import opened Tables

  predicate Matches(a: Id, u: Upstream, t: Terms) {
    && (t.provider.None? || t.provider.value == u.provider)
    && (t.region.None? || u.region == t.region)
    && t.capabilities <= u.capabilities
    && (t.allowed.None? || a in t.allowed.value)
    && (t.dedicated.None? || t.dedicated.value == a)
  }

  predicate Usable(u: Upstream, now: int) {
    u.enabled && u.available && (u.cooldownUntil.None? || u.cooldownUntil.value <= now)
  }

  predicate Fresh(o: Observation, t: Terms, now: int) {
    && o.fromReader && o.markedFresh
    && o.observedAt <= now < o.staleAt
    && now - t.maxAge <= o.observedAt
    && o.scale > 0
    && o.units.Some? && o.units.value >= 0
  }

  predicate Observed(u: Upstream, kind: Kind, t: Terms, now: int) {
    kind in u.newest && Fresh(u.newest[kind], t, now)
  }

  /** Observations carry different scales; only normalized units are compared. */
  function Units(u: Upstream, kind: Kind, t: Terms, now: int): int
    requires Observed(u, kind, t, now)
  {
    u.newest[kind].units.value / u.newest[kind].scale
  }

  function Occupants(leases: map<Id, Lease>, a: Id): set<Id> {
    set r | r in leases && leases[r].account == a && leases[r].state.Occupies()
  }

  function Slots(leases: map<Id, Lease>, a: Id): nat { |Occupants(leases, a)| }

  // The four filters, each inside the one before.

  predicate Passes1(up: map<Id, Upstream>, t: Terms, a: Id) {
    a in up && Matches(a, up[a], t)
  }

  predicate Passes2(up: map<Id, Upstream>, t: Terms, now: int, a: Id) {
    Passes1(up, t, a) && Usable(up[a], now)
  }

  predicate Passes3(up: map<Id, Upstream>, t: Terms, kind: Kind, now: int, a: Id) {
    Passes2(up, t, now, a) && Observed(up[a], kind, t, now)
  }

  predicate Eligible(up: map<Id, Upstream>, leases: map<Id, Lease>, t: Terms, kind: Kind, now: int, a: Id) {
    && Passes3(up, t, kind, now, a)
    && Units(up[a], kind, t, now) >= t.predicted + t.margin
    && Slots(leases, a) < up[a].maxConcurrency
  }

  /** What the strategy sorts by, ascending. */
  function Score(up: map<Id, Upstream>, leases: map<Id, Lease>, t: Terms, kind: Kind, now: int, a: Id): int
    requires Passes3(up, t, kind, now, a)
  {
    match t.strategy
    case HighestNormalizedAvailable => -Units(up[a], kind, t, now)
    case LeastActiveSlots => Slots(leases, a)
  }

  ghost predicate Best(up: map<Id, Upstream>, leases: map<Id, Lease>, t: Terms, kind: Kind, now: int, a: Id) {
    && Eligible(up, leases, t, kind, now, a)
    && forall c :: Eligible(up, leases, t, kind, now, c) ==> NotAfter(up, leases, t, kind, now, a, c)
  }

  ghost predicate Chosen(up: map<Id, Upstream>, leases: map<Id, Lease>, t: Terms, kind: Kind, now: int, r: Result<Id>) {
    if !Fits(t.predicted + t.margin) then r == Err(InvalidQuotaAmount)
    else match r
      case Ok(a) => Best(up, leases, t, kind, now, a)
      case Err(e) =>
        && (forall a :: !Eligible(up, leases, t, kind, now, a))
        && e == if forall a :: !Passes1(up, t, a) then CapabilityMismatch
                else if forall a :: !Passes2(up, t, now, a) then AccountCooling
                else if forall a :: !Passes3(up, t, kind, now, a) then NoFreshObservation
                else NoUpstreamCapacity
  }

  /** There is exactly one answer, so the order in which accounts are read is immaterial. */
  lemma ChoiceIsUnique(up: map<Id, Upstream>, leases: map<Id, Lease>, t: Terms, kind: Kind, now: int,
                       r: Result<Id>, q: Result<Id>)
    requires Chosen(up, leases, t, kind, now, r) && Chosen(up, leases, t, kind, now, q)
    ensures r == q
  {
  }

  /** Read every account once, noting which filters let one through and who passed all. */
  method Gather(up: map<Id, Upstream>, leases: map<Id, Lease>, t: Terms, kind: Kind, now: int)
    returns (matched: bool, usable: bool, observed: bool, candidates: seq<Id>)
    ensures matched <==> exists a :: Passes1(up, t, a)
    ensures usable <==> exists a :: Passes2(up, t, now, a)
    ensures observed <==> exists a :: Passes3(up, t, kind, now, a)
    ensures forall a :: a in candidates <==> Eligible(up, leases, t, kind, now, a)
  {
    matched, usable, observed, candidates := false, false, false, [];
    var pending := up.Keys;
    ghost var m, u, o := 0, 0, 0;
    while pending != {}
      invariant pending <= up.Keys
      invariant if matched then Passes1(up, t, m) else forall a :: a !in pending ==> !Passes1(up, t, a)
      invariant if usable then Passes2(up, t, now, u) else forall a :: a !in pending ==> !Passes2(up, t, now, a)
      invariant if observed then Passes3(up, t, kind, now, o) else forall a :: a !in pending ==> !Passes3(up, t, kind, now, a)
      invariant forall a :: a in candidates <==> a !in pending && Eligible(up, leases, t, kind, now, a)
      decreases |pending|
    {
      var a :| a in pending;
      pending := pending - {a};
      if Matches(a, up[a], t) {
        matched, m := true, a;
        if Usable(up[a], now) {
          usable, u := true, a;
          if Observed(up[a], kind, t, now) {
            observed, o := true, a;
            if Units(up[a], kind, t, now) >= t.predicted + t.margin && Slots(leases, a) < up[a].maxConcurrency {
              candidates := candidates + [a];
            }
          }
        }
      }
    }
  }

  ghost predicate NotAfter(up: map<Id, Upstream>, leases: map<Id, Lease>, t: Terms, kind: Kind, now: int, a: Id, c: Id)
    requires Passes3(up, t, kind, now, a) && Passes3(up, t, kind, now, c)
  {
    var s, z := Score(up, leases, t, kind, now, a), Score(up, leases, t, kind, now, c);
    s < z || (s == z && a <= c)
  }

  /** The head of the candidates once sorted by (score, id). */
  method FirstOf(up: map<Id, Upstream>, leases: map<Id, Lease>, t: Terms, kind: Kind, now: int, candidates: seq<Id>)
    returns (best: Id)
    requires candidates != []
    requires forall a :: a in candidates ==> Passes3(up, t, kind, now, a)
    ensures best in candidates
    ensures forall a :: a in candidates ==> NotAfter(up, leases, t, kind, now, best, a)
  {
    best := candidates[0];
    for i := 1 to |candidates|
      invariant best in candidates
      invariant forall k :: 0 <= k < i ==> NotAfter(up, leases, t, kind, now, best, candidates[k])
    {
      var s, z := Score(up, leases, t, kind, now, candidates[i]), Score(up, leases, t, kind, now, best);
      if s < z || (s == z && candidates[i] < best) {
        best := candidates[i];
      }
    }
  }

  method SelectCandidate(up: map<Id, Upstream>, leases: map<Id, Lease>, t: Terms, kind: Kind, now: int)
    returns (r: Result<Id>)
    ensures Chosen(up, leases, t, kind, now, r)
  {
    if !Fits(t.predicted + t.margin) {
      return Err(InvalidQuotaAmount);
    }
    var matched, usable, observed, candidates := Gather(up, leases, t, kind, now);
    if candidates != [] {
      var best := FirstOf(up, leases, t, kind, now, candidates);
      assert forall c :: Eligible(up, leases, t, kind, now, c) ==> NotAfter(up, leases, t, kind, now, best, c);
      return Ok(best);
    }
    return Err(if !matched then CapabilityMismatch
               else if !usable then AccountCooling
               else if !observed then NoFreshObservation
               else NoUpstreamCapacity);
  }

  lemma {:induction false} LeastExists(up: map<Id, Upstream>, leases: map<Id, Lease>, t: Terms, kind: Kind, now: int, s: set<Id>)
    returns (best: Id)
    requires s != {} && forall a :: a in s ==> Passes3(up, t, kind, now, a)
    ensures best in s && forall a :: a in s ==> NotAfter(up, leases, t, kind, now, best, a)
    decreases |s|
  {
    var e :| e in s;
    best := e;
    if s != {e} {
      assert s - {e} != {};
      var rest := LeastExists(up, leases, t, kind, now, s - {e});
      if !NotAfter(up, leases, t, kind, now, e, rest) { best := rest; }
      assert forall a :: a in s ==> a == e || a in s - {e};
    }
  }

  lemma ChoiceExists(up: map<Id, Upstream>, leases: map<Id, Lease>, t: Terms, kind: Kind, now: int)
    ensures exists r :: Chosen(up, leases, t, kind, now, r)
  {
    var s := set a | a in up && Eligible(up, leases, t, kind, now, a);
    if !Fits(t.predicted + t.margin) {
      assert Chosen(up, leases, t, kind, now, Err(InvalidQuotaAmount));
    } else if s != {} {
      var best := LeastExists(up, leases, t, kind, now, s);
      assert Chosen(up, leases, t, kind, now, Ok(best));
    } else {
      assert forall a :: Eligible(up, leases, t, kind, now, a) ==> a in s;
      var e := if forall a :: !Passes1(up, t, a) then CapabilityMismatch
               else if forall a :: !Passes2(up, t, now, a) then AccountCooling
               else if forall a :: !Passes3(up, t, kind, now, a) then NoFreshObservation
               else NoUpstreamCapacity;
      assert Chosen(up, leases, t, kind, now, Err(e));
    }
  }

  /** The account select_upstream_candidate answers with, or its error. */
  ghost function Select(up: map<Id, Upstream>, leases: map<Id, Lease>, t: Terms, kind: Kind, now: int): (r: Result<Id>)
    ensures Chosen(up, leases, t, kind, now, r)
  {
    ChoiceExists(up, leases, t, kind, now);
    var r :| Chosen(up, leases, t, kind, now, r);
    r
  }

  // ------------------------------------------------------------- slot counts

  lemma TakeSlot(leases: map<Id, Lease>, r: Id, l: Lease, a: Id)
    requires r !in leases
    ensures Slots(leases[r := l], a)
         == Slots(leases, a) + if l.account == a && l.state.Occupies() then 1 else 0
  {
    var before, after := Occupants(leases, a), Occupants(leases[r := l], a);
    if l.account == a && l.state.Occupies() {
      assert after == before + {r};
    } else {
      assert after == before;
    }
  }

  lemma {:induction false} SubsetCounts<T>(x: set<T>, y: set<T>)
    requires x <= y
    ensures |x| <= |y|
  {
    if x != {} {
      var e :| e in x;
      SubsetCounts(x - {e}, y - {e});
    }
  }

  /** No lease moves to another account or starts to occupy one, so no count rises. */
  lemma SlotsFall(leases: map<Id, Lease>, leases': map<Id, Lease>, a: Id)
    requires leases'.Keys == leases.Keys
    requires forall r :: r in leases ==>
      && leases'[r].account == leases[r].account
      && (leases'[r].state.Occupies() ==> leases[r].state.Occupies())
    ensures Slots(leases', a) <= Slots(leases, a)
  {
    SubsetCounts(Occupants(leases', a), Occupants(leases, a));
  }
}
