/** The order in which waiting tasks are taken: by priority band with ageing, then deadline, then arrival. */
module Scheduler {
  import opened Options
  import Sorting

  type Task = int

  datatype Spec = Spec(priority: int, deadline: Option<real>, created: real)

  datatype Config = Config(bandWidth: int, deadlineWeight: real, fifoWeight: real, ageRate: real, ageMax: real) {
    /** The limits a configuration has to respect. */
    predicate Valid() {
      bandWidth >= 1 && deadlineWeight >= 0.0 && fifoWeight >= 0.0 && ageRate >= 0.0 && ageMax >= 0.0
    }
  }

  function Min(a: real, b: real): real {
    if a <= b then a else b
  }

  /** Waiting raises the priority, up to a bound. */
  function Effective(c: Config, s: Spec, now: real): real {
    var age := if now - s.created > 0.0 then now - s.created else 0.0;
    s.priority as real + Min(c.ageMax, c.ageRate * age)
  }

  function Band(c: Config, s: Spec, now: real): int
    requires c.Valid()
  {
    (Effective(c, s, now) / c.bandWidth as real).Floor
  }

  datatype Key = Key(band: int, noDeadline: int, score: real, created: real, id: Task)

  /** Arrival and slack, weighted; a task without a deadline has no slack. */
  function Score(c: Config, s: Spec, now: real): real {
    c.fifoWeight * (s.created - now) +
    if c.deadlineWeight > 0.0 && s.deadline.Some? then c.deadlineWeight * (s.deadline.value - now) else 0.0
  }

  function SortKey(c: Config, s: Spec, id: Task, now: real): Key
    requires c.Valid()
  {
    Key(-Band(c, s, now), if c.deadlineWeight > 0.0 && s.deadline == None then 1 else 0, Score(c, s, now), s.created, id)
  }

  predicate Less(a: Key, b: Key) {
    a.band < b.band || (a.band == b.band &&
    (a.noDeadline < b.noDeadline || (a.noDeadline == b.noDeadline &&
    (a.score < b.score || (a.score == b.score &&
    (a.created < b.created || (a.created == b.created && a.id < b.id)))))))
  }

  /** Key of a task of the table; unknown tasks come last. */
  function KeyOf(c: Config, specs: map<Task, Spec>, id: Task, now: real): Key
    requires c.Valid()
  {
    SortKey(c, if id in specs then specs[id] else Spec(0, None, 0.0), id, now)
  }

  function Insert(c: Config, specs: map<Task, Spec>, now: real, x: Task, s: seq<Task>): (r: seq<Task>)
    requires c.Valid()
    ensures |r| == |s| + 1 && forall y :: y in r <==> y == x || y in s
  {
    if s == [] || Less(KeyOf(c, specs, x, now), KeyOf(c, specs, s[0], now)) then [x] + s
    else
      assert s == [s[0]] + s[1..];
      [s[0]] + Insert(c, specs, now, x, s[1..])
  }

  function SortAll(c: Config, specs: map<Task, Spec>, now: real, s: seq<Task>): (r: seq<Task>)
    requires c.Valid()
    ensures |r| == |s| && forall y :: y in r <==> y in s
  {
    if s == [] then []
    else
      assert s == [s[0]] + s[1..];
      Insert(c, specs, now, s[0], SortAll(c, specs, now, s[1..]))
  }

  /** The waiting tasks in the order they are to be taken. */
  function Ordered(c: Config, specs: map<Task, Spec>, now: real, queue: set<Task>): seq<Task>
    requires c.Valid()
  {
    SortAll(c, specs, now, Sorting.Sorted(queue))
  }

  ghost predicate Ascending(c: Config, specs: map<Task, Spec>, now: real, s: seq<Task>)
    requires c.Valid()
  {
    forall i, j :: 0 <= i < j < |s| ==> Less(KeyOf(c, specs, s[i], now), KeyOf(c, specs, s[j], now))
  }

  /** A list that has every member of the set once. */
  ghost predicate ListsAll(s: seq<Task>, q: set<Task>) {
    && (forall i, j :: 0 <= i < j < |s| ==> s[i] != s[j])
    && (forall x :: x in s <==> x in q)
  }

  lemma LessTotal(a: Key, b: Key)
    requires a.id != b.id
    ensures Less(a, b) <==> !Less(b, a)
  {
  }

  lemma LessTrans(a: Key, b: Key, e: Key)
    requires Less(a, b) && Less(b, e)
    ensures Less(a, e)
  {
  }

  lemma {:induction false} InsertAscending(c: Config, specs: map<Task, Spec>, now: real, x: Task, s: seq<Task>)
    requires c.Valid() && Ascending(c, specs, now, s) && x !in s
    ensures Ascending(c, specs, now, Insert(c, specs, now, x, s))
  {
    hide Less, SortKey, Config.Valid;
    var r := Insert(c, specs, now, x, s);
    if s != [] {
      IdOfKey(c, specs, now, x);
      IdOfKey(c, specs, now, s[0]);
      LessTotal(KeyOf(c, specs, x, now), KeyOf(c, specs, s[0], now));
      if Less(KeyOf(c, specs, x, now), KeyOf(c, specs, s[0], now)) {
        forall j | 0 < j < |s| ensures Less(KeyOf(c, specs, x, now), KeyOf(c, specs, s[j], now)) {
          LessTrans(KeyOf(c, specs, x, now), KeyOf(c, specs, s[0], now), KeyOf(c, specs, s[j], now));
        }
      } else {
        InsertAscending(c, specs, now, x, s[1..]);
        var rest := Insert(c, specs, now, x, s[1..]);
        forall y | y in rest ensures Less(KeyOf(c, specs, s[0], now), KeyOf(c, specs, y, now)) {
          if y != x {
            var k :| 0 <= k < |s[1..]| && s[1..][k] == y;
            assert s[k + 1] == y;
          }
        }
        assert forall j :: 0 < j < |r| ==> r[j] == rest[j - 1] && r[j] in rest;
      }
    }
  }

  lemma IdOfKey(c: Config, specs: map<Task, Spec>, now: real, x: Task)
    requires c.Valid()
    ensures KeyOf(c, specs, x, now).id == x
  {
  }

  lemma {:induction false} SortAllAscending(c: Config, specs: map<Task, Spec>, now: real, s: seq<Task>)
    requires c.Valid() && forall i, j :: 0 <= i < j < |s| ==> s[i] != s[j]
    ensures Ascending(c, specs, now, SortAll(c, specs, now, s))
  {
    if s != [] {
      assert forall i :: 0 <= i < |s[1..]| ==> s[1..][i] == s[i + 1];
      SortAllAscending(c, specs, now, s[1..]);
      InsertAscending(c, specs, now, s[0], SortAll(c, specs, now, s[1..]));
    }
  }

  lemma LessIrreflexive(a: Key)
    ensures !Less(a, a)
  {
  }

  /** The order lists every waiting task once, by ascending key. */
  lemma OrderedRight(c: Config, specs: map<Task, Spec>, now: real, queue: set<Task>)
    requires c.Valid()
    ensures ListsAll(Ordered(c, specs, now, queue), queue)
    ensures Ascending(c, specs, now, Ordered(c, specs, now, queue))
  {
    hide Less;
    var s := Sorting.Sorted(queue);
    assert forall i, j :: 0 <= i < j < |s| ==> s[i] != s[j];
    SortAllAscending(c, specs, now, s);
    var r := SortAll(c, specs, now, s);
    forall i, j | 0 <= i < j < |r| ensures r[i] != r[j] {
      LessIrreflexive(KeyOf(c, specs, r[i], now));
    }
  }

  // ---------------------------------------------------------------- what the order means

  /** In one band with pure deadline scoring, the earlier deadline goes first, and any deadline before none. */
  lemma EarliestDeadlineFirst(c: Config, specs: map<Task, Spec>, now: real, a: Task, b: Task)
    requires c.Valid() && c.deadlineWeight > 0.0 && c.fifoWeight == 0.0 && a in specs && b in specs
    requires Band(c, specs[a], now) == Band(c, specs[b], now) && specs[a].deadline.Some?
    requires specs[b].deadline == None || specs[a].deadline.value < specs[b].deadline.value
    ensures Less(KeyOf(c, specs, a, now), KeyOf(c, specs, b, now))
  {
    hide Band, Score;
    if specs[b].deadline.Some? {
      EarlierScoresLess(c, specs[a], specs[b], now);
    }
  }

  lemma EarlierScoresLess(c: Config, a: Spec, b: Spec, now: real)
    requires c.deadlineWeight > 0.0 && c.fifoWeight == 0.0 && a.deadline.Some? && b.deadline.Some?
    requires a.deadline.value < b.deadline.value
    ensures Score(c, a, now) < Score(c, b, now)
  {
    ZeroTimes(c.fifoWeight, a.created - now);
    ZeroTimes(c.fifoWeight, b.created - now);
    Scaled(c.deadlineWeight, a.deadline.value - now, b.deadline.value - now);
  }

  lemma ZeroTimes(w: real, x: real)
    requires w == 0.0
    ensures w * x == 0.0
  {
  }

  lemma Scaled(w: real, x: real, y: real)
    requires w > 0.0 && x < y
    ensures w * x < w * y
  {
    assert w * (y - x) > 0.0;
  }

  /** Once it has aged fully, a task is not in a lower band than a new one of a priority up to ageMax above its own. */
  lemma AgedCatchesUp(c: Config, old_: Spec, fresh_: Spec, now: real)
    requires c.Valid() && now >= old_.created && c.ageRate * (now - old_.created) >= c.ageMax
    requires fresh_.created == now && fresh_.priority as real <= old_.priority as real + c.ageMax
    ensures Band(c, old_, now) >= Band(c, fresh_, now)
  {
    assert Effective(c, old_, now) == old_.priority as real + c.ageMax;
    assert Effective(c, fresh_, now) <= fresh_.priority as real;
    FloorMonotone(Effective(c, fresh_, now), Effective(c, old_, now), c.bandWidth as real);
  }

  lemma FloorMonotone(x: real, y: real, w: real)
    requires x <= y && w > 0.0
    ensures (x / w).Floor <= (y / w).Floor
  {
    assert (y - x) / w >= 0.0;
    assert y / w - x / w == (y - x) / w;
  }

  // ---------------------------------------------------------------- the order, on the fields of the tasks

  /** The priority, raised with the time waited, up to a bound. */
  ghost function Boosted(c: Config, s: Spec, now: real): real {
    var waited := if now > s.created then now - s.created else 0.0;
    s.priority as real + if c.ageRate * waited < c.ageMax then c.ageRate * waited else c.ageMax
  }

  /** The raised priority is at least k bands. */
  ghost predicate Reaches(c: Config, s: Spec, k: int, now: real) {
    k as real * c.bandWidth as real <= Boosted(c, s, now)
  }

  /** One reaches a band that the other does not. */
  ghost predicate HigherBand(c: Config, x: Spec, y: Spec, now: real) {
    exists k: int :: Reaches(c, x, k, now) && !Reaches(c, y, k, now)
  }

  /** Arrival and deadline, weighted: what counts within a band does not depend on the time. */
  ghost function Weighed(c: Config, s: Spec): real {
    c.fifoWeight * s.created + if c.deadlineWeight > 0.0 && s.deadline.Some? then c.deadlineWeight * s.deadline.value else 0.0
  }

  ghost predicate DeadlinesCount(c: Config, s: Spec) {
    c.deadlineWeight > 0.0 && s.deadline.Some?
  }

  /** Task a with spec x is taken before b with spec y. */
  ghost predicate TakenBefore(c: Config, x: Spec, a: Task, y: Spec, b: Task, now: real) {
    || HigherBand(c, x, y, now)
    || (!HigherBand(c, y, x, now) &&
        if c.deadlineWeight > 0.0 && (x.deadline == None) != (y.deadline == None) then x.deadline.Some?
        else Weighed(c, x) < Weighed(c, y) ||
             (Weighed(c, x) == Weighed(c, y) && (x.created < y.created || (x.created == y.created && a < b))))
  }

  lemma FloorReaches(e: real, w: real, k: int)
    requires w > 0.0
    ensures k as real * w <= e <==> k <= (e / w).Floor
  {
    var q := e / w;
    assert e == q * w;
    Times(k as real, q, w);
    Times(q, k as real, w);
    assert k as real <= q <==> k <= q.Floor;
  }

  lemma Times(x: real, y: real, w: real)
    requires w > 0.0
    ensures x < y <==> x * w < y * w
  {
    assert y * w - x * w == (y - x) * w;
    if x < y {
      assert (y - x) * w > 0.0;
    } else {
      assert (x - y) * w >= 0.0;
    }
  }

  /** The band is the highest one reached. */
  lemma BandReaches(c: Config, s: Spec, now: real, k: int)
    requires c.Valid()
    ensures Reaches(c, s, k, now) <==> k <= Band(c, s, now)
  {
    assert Boosted(c, s, now) == Effective(c, s, now);
    hide Boosted, Effective;
    FloorReaches(Effective(c, s, now), c.bandWidth as real, k);
  }

  lemma BandsCompare(c: Config, x: Spec, y: Spec, now: real)
    requires c.Valid()
    ensures HigherBand(c, x, y, now) <==> Band(c, x, now) > Band(c, y, now)
  {
    hide Band, Reaches;
    var k := Band(c, x, now);
    BandReaches(c, x, now, k);
    BandReaches(c, y, now, k);
    if HigherBand(c, x, y, now) {
      var l: int :| Reaches(c, x, l, now) && !Reaches(c, y, l, now);
      BandReaches(c, x, now, l);
      BandReaches(c, y, now, l);
    }
  }

  lemma ScoresCompare(c: Config, x: Spec, y: Spec, now: real)
    requires DeadlinesCount(c, x) == DeadlinesCount(c, y)
    ensures Score(c, x, now) - Score(c, y, now) == Weighed(c, x) - Weighed(c, y)
  {
    Spread(c.fifoWeight, x.created, now);
    Spread(c.fifoWeight, y.created, now);
    if DeadlinesCount(c, x) {
      Spread(c.deadlineWeight, x.deadline.value, now);
      Spread(c.deadlineWeight, y.deadline.value, now);
    }
  }

  lemma Spread(w: real, x: real, now: real)
    ensures w * (x - now) == w * x - w * now
  {
  }

  /** Keys are ordered exactly as the tasks are to be taken. */
  lemma KeysByFields(c: Config, x: Spec, a: Task, y: Spec, b: Task, now: real)
    requires c.Valid()
    ensures Less(SortKey(c, x, a, now), SortKey(c, y, b, now)) <==> TakenBefore(c, x, a, y, b, now)
  {
    hide Band, Score, Weighed, HigherBand, Config.Valid;
    BandsCompare(c, x, y, now);
    BandsCompare(c, y, x, now);
    if DeadlinesCount(c, x) == DeadlinesCount(c, y) {
      ScoresCompare(c, x, y, now);
    }
  }

  /** The tasks of the list are known, and each is to be taken before those after it. */
  ghost predicate InTurn(c: Config, specs: map<Task, Spec>, now: real, s: seq<Task>) {
    && (forall i :: 0 <= i < |s| ==> s[i] in specs)
    && (forall i, j :: 0 <= i < j < |s| ==> TakenBefore(c, specs[s[i]], s[i], specs[s[j]], s[j], now))
  }

  /** Every waiting task is listed once, and before all that are to be taken after it. */
  lemma OrderedByFields(c: Config, specs: map<Task, Spec>, now: real, queue: set<Task>)
    requires c.Valid() && queue <= specs.Keys
    ensures ListsAll(Ordered(c, specs, now, queue), queue) && InTurn(c, specs, now, Ordered(c, specs, now, queue))
  {
    hide Less, TakenBefore, SortKey, Config.Valid, Ordered;
    OrderedRight(c, specs, now, queue);
    var s := Ordered(c, specs, now, queue);
    forall i | 0 <= i < |s| ensures s[i] in specs {
      var x := s[i];
      assert x in s && x in queue;
    }
    forall i, j | 0 <= i < j < |s| ensures TakenBefore(c, specs[s[i]], s[i], specs[s[j]], s[j], now) {
      KeysByFields(c, specs[s[i]], s[i], specs[s[j]], s[j], now);
    }
  }
}
