/** Which zones ahead a robot asks for at once. */
module RequestChains {
  import opened Options
  import opened Tokens

  /** A passage through a zone, from sIn to sOut metres ahead on the route. */
  datatype Visit = Visit(zone: Zone, sIn: real, sOut: real)

  const BEGUN := 0.000001

  /** The visits that have not begun, in the order of the route. */
  function Upcoming(visits: seq<Visit>): (up: seq<Visit>)
    ensures forall v :: v in up <==> v in visits && v.sIn > BEGUN
  {
    if visits == [] then []
    else if visits[|visits| - 1].sIn > BEGUN then Upcoming(visits[..|visits| - 1]) + [visits[|visits| - 1]]
    else Upcoming(visits[..|visits| - 1])
  }

  lemma UpcomingOne(v: Visit)
    ensures Upcoming([v]) == if v.sIn > 0.000001 then [v] else []
  {
    assert [v][..0] == [];
    assert Upcoming([]) == [];
  }

  /** The visits ahead come in the order of the route: those of a first part before those of the rest. */
  lemma {:induction false} UpcomingInOrder(a: seq<Visit>, b: seq<Visit>)
    ensures Upcoming(a + b) == Upcoming(a) + Upcoming(b)
  {
    if b == [] {
      assert a + b == a;
    } else {
      var n := |b| - 1;
      assert (a + b)[..|a + b| - 1] == a + b[..n];
      UpcomingInOrder(a, b[..n]);
    }
  }

  /** The body is in a zone other than z. */
  predicate Inside(occupied: set<Zone>, z: Zone) {
    exists y :: y in occupied && y != z
  }

  /** A visit that has begun, of a zone other than z where the body is. */
  predicate Leaving(v: Visit, occupied: set<Zone>, z: Zone) {
    v.zone in occupied && v.zone != z && v.sIn <= BEGUN
  }

  /**
   The first visit may be asked for from where the robot is: it stands in no other zone, or the way
   from the last exit of such a zone (from here, if the centre is already out) is at most the gap.
   */
  ghost predicate Bound(visits: seq<Visit>, first: Visit, gap: real, occupied: set<Zone>) {
    occupied <= {first.zone} ||
    (exists v :: LeftBehind(visits, first, occupied, v) && first.sIn - v.sOut <= gap) ||
    ((forall v :: !LeftBehind(visits, first, occupied, v)) && first.sIn <= gap)
  }

  /** A visit on the route that has begun, of a zone where the body is, other than the first one ahead. */
  ghost predicate LeftBehind(visits: seq<Visit>, first: Visit, occupied: set<Zone>, v: Visit) {
    v in visits && v.sIn <= 0.000001 && v.zone in occupied - {first.zone}
  }

  lemma LeavingIs(visits: seq<Visit>, first: Visit, occupied: set<Zone>)
    ensures forall v :: LeftBehind(visits, first, occupied, v) <==> v in visits && Leaving(v, occupied, first.zone)
    ensures Inside(occupied, first.zone) <==> !(occupied <= {first.zone})
  {
    if !Inside(occupied, first.zone) {
      assert forall y :: y in occupied ==> y == first.zone;
    }
  }

  ghost predicate Asks(visits: seq<Visit>, approach: Zone -> real, gap: real, occupied: set<Zone>) {
    var up := Upcoming(visits);
    up != [] && up[0].sIn <= approach(up[0].zone) && Bound(visits, up[0], gap, occupied)
  }

  /** The first k visits are the longest run without a gap between them that is too wide to skip. */
  ghost predicate Together(up: seq<Visit>, gap: real, k: nat) {
    && 1 <= k <= |up| && (forall j :: 1 <= j < k ==> up[j].sIn - up[j - 1].sOut <= gap)
    && (k < |up| ==> up[k].sIn - up[k - 1].sOut > gap)
  }

  ghost function ZonesOf(visits: seq<Visit>): set<Zone> {
    set v | v in visits :: v.zone
  }

  /** The first visit to every zone, in the order of the route. */
  ghost function Firsts(chain: seq<Visit>): seq<Visit> {
    if chain == [] then []
    else
      var rest, v := Firsts(chain[..|chain| - 1]), chain[|chain| - 1];
      if v.zone in ZonesOf(rest) then rest else rest + [v]
  }

  /** What has to be asked for if anything is. */
  ghost predicate IsChain(up: seq<Visit>, gap: real, out: seq<Visit>) {
    exists k: nat :: Together(up, gap, k) && out == Firsts(up[..k])
  }

  method ExitOf(visits: seq<Visit>, occupied: set<Zone>, z: Zone) returns (exit: real)
    ensures (forall v :: v in visits ==> !Leaving(v, occupied, z)) ==> exit == 0.0
    ensures forall v :: v in visits && Leaving(v, occupied, z) ==> v.sOut <= exit
    ensures (exists v :: v in visits && Leaving(v, occupied, z)) ==>
              exists v :: v in visits && Leaving(v, occupied, z) && v.sOut == exit
  {
    exit := 0.0;
    var best: Option<Visit> := None;
    for k := 0 to |visits|
      invariant best == None ==> exit == 0.0 && forall v :: v in visits[..k] ==> !Leaving(v, occupied, z)
      invariant best.Some? ==> best.value in visits && Leaving(best.value, occupied, z) && exit == best.value.sOut
      invariant forall v :: v in visits[..k] && Leaving(v, occupied, z) ==> v.sOut <= exit
    {
      assert visits[..k + 1] == visits[..k] + [visits[k]];
      if Leaving(visits[k], occupied, z) && (best == None || visits[k].sOut > exit) {
        exit, best := visits[k].sOut, Some(visits[k]);
      }
    }
    assert visits[..|visits|] == visits;
  }

  /** The visits to ask for now, or none. */
  method RequestChain(visits: seq<Visit>, approach: Zone -> real, gap: real, occupied: set<Zone>)
      returns (out: seq<Visit>)
    ensures out == [] <==> !Asks(visits, approach, gap, occupied)
    ensures out != [] ==> IsChain(Upcoming(visits), gap, out)
  {
    hide IsChain, Bound, Upcoming, Inside, Leaving;
    var up := Upcoming(visits);
    if up == [] || up[0].sIn > approach(up[0].zone) {
      return [];
    }
    var bound := IsBound(visits, up[0], gap, occupied);
    if !bound {
      return [];
    }
    out := TakeChain(up, gap);
  }

  method IsBound(visits: seq<Visit>, first: Visit, gap: real, occupied: set<Zone>) returns (bound: bool)
    ensures bound <==> Bound(visits, first, gap, occupied)
  {
    hide Leaving, LeftBehind, Inside;
    LeavingIs(visits, first, occupied);
    bound := true;
    if Inside(occupied, first.zone) {
      var exit := ExitOf(visits, occupied, first.zone);
      bound := first.sIn - exit <= gap;
    }
  }

  method TakeChain(up: seq<Visit>, gap: real) returns (out: seq<Visit>)
    requires up != []
    ensures out != [] && IsChain(up, gap, out)
  {
    var k := 1;
    while k < |up| && up[k].sIn - up[k - 1].sOut <= gap
      invariant 1 <= k <= |up| && forall j :: 1 <= j < k ==> up[j].sIn - up[j - 1].sOut <= gap
    {
      k := k + 1;
    }
    out := OncePerZone(up[..k]);
    Asked(up[..k], 0);
    assert out != [] by { assert up[..k][0].zone in ZonesOf(out); }
  }

  method OncePerZone(chain: seq<Visit>) returns (out: seq<Visit>)
    ensures out == Firsts(chain)
  {
    out := [];
    for k := 0 to |chain|
      invariant out == Firsts(chain[..k])
    {
      assert chain[..k + 1][..k] == chain[..k];
      if forall o :: o in out ==> o.zone != chain[k].zone {
        out := out + [chain[k]];
      }
    }
    assert chain[..|chain|] == chain;
  }

  /**
   Every zone of the chain is asked for, none twice, and what the start of the chain asks for comes
   first: so every zone is asked for by its first visit, in the order of the route.
   */
  lemma {:induction false} Asked(chain: seq<Visit>, k: nat)
    requires k <= |chain|
    ensures var out := Firsts(chain);
            && ZonesOf(out) == ZonesOf(chain) && Firsts(chain[..k]) <= out
            && (forall i, j :: 0 <= i < j < |out| ==> out[i].zone != out[j].zone)
            && (forall o :: o in out ==> o in chain)
  {
    if chain != [] {
      var rest, v := chain[..|chain| - 1], chain[|chain| - 1];
      assert chain == rest + [v];
      Asked(rest, if k < |chain| then k else 0);
      if k < |chain| {
        assert rest[..k] == chain[..k];
      } else {
        assert chain[..k] == chain;
      }
      AskedOneMore(rest, v, Firsts(rest));
    }
  }

  lemma AskedOneMore(rest: seq<Visit>, v: Visit, out: seq<Visit>)
    requires ZonesOf(out) == ZonesOf(rest) && forall i, j :: 0 <= i < j < |out| ==> out[i].zone != out[j].zone
    ensures v.zone in ZonesOf(out) ==> ZonesOf(rest + [v]) == ZonesOf(out)
    ensures v.zone !in ZonesOf(out) ==> ZonesOf(rest + [v]) == ZonesOf(out + [v])
    ensures v.zone !in ZonesOf(out) ==> forall j :: 0 <= j < |out| ==> out[j].zone != v.zone
  {
    assert ZonesOf(rest + [v]) == ZonesOf(rest) + {v.zone};
    assert ZonesOf(out + [v]) == ZonesOf(out) + {v.zone};
    assert forall j :: 0 <= j < |out| ==> out[j] in out;
  }

  /** There is only one such chain; it holds no zone twice and only visits that have not begun. */
  lemma OnlyChain(visits: seq<Visit>, gap: real, out: seq<Visit>, other: seq<Visit>)
    requires IsChain(Upcoming(visits), gap, out)
    ensures IsChain(Upcoming(visits), gap, other) <==> other == out
    ensures forall i, j :: 0 <= i < j < |out| ==> out[i].zone != out[j].zone
    ensures forall o :: o in out ==> o in visits && o.sIn > BEGUN
  {
    hide Upcoming, Firsts;
    var up := Upcoming(visits);
    var k: nat :| Together(up, gap, k) && out == Firsts(up[..k]);
    Asked(up[..k], 0);
    assert forall o :: o in out ==> o in up[..k] && o in up;
    forall h: nat | Together(up, gap, h) ensures h == k {
      SameLength(up, gap, h, k);
    }
  }

  lemma SameLength(up: seq<Visit>, gap: real, h: nat, k: nat)
    requires Together(up, gap, h) && Together(up, gap, k)
    ensures h == k
  {
  }
}
