/** Confirming deadlocks: a set of robots counts once it has been a candidate for long enough without a break. */
module CycleConfirming {
  type Robot = int
  type Candidate = set<Robot>

  /** When each candidate's present spell began, and which candidates were reported in it. */
  datatype State = State(since: map<Candidate, real>, reported: set<Candidate>)

  /** The candidates of one cycle. */
  datatype Cycle = Cycle(now: real, candidates: set<Candidate>)

  function Begun(s: State, i: Cycle): map<Candidate, real> {
    map c | c in i.candidates :: if c in s.since then s.since[c] else i.now
  }

  function Confirmed(s: State, i: Cycle, wait: real): set<Candidate> {
    set c | c in i.candidates && c !in s.reported && i.now - Begun(s, i)[c] >= wait
  }

  function Next(s: State, i: Cycle, wait: real): State {
    State(Begun(s, i), s.reported * i.candidates + Confirmed(s, i, wait))
  }

  function After(cycles: seq<Cycle>, wait: real): State {
    if cycles == [] then State(map[], {}) else Next(After(cycles[..|cycles| - 1], wait), cycles[|cycles| - 1], wait)
  }

  /** The first cycle of the candidate's present spell; the number of cycles if it is not present. */
  function SpellStart(cycles: seq<Cycle>, c: Candidate): (k: nat)
    ensures k <= |cycles| && forall i :: k <= i < |cycles| ==> c in cycles[i].candidates
    ensures 0 < k <= |cycles| ==> c !in cycles[k - 1].candidates
  {
    if cycles == [] || c !in cycles[|cycles| - 1].candidates then |cycles|
    else SpellStart(cycles[..|cycles| - 1], c)
  }

  /** In the present spell some cycle came long enough after its start. */
  ghost predicate Ripe(cycles: seq<Cycle>, c: Candidate, wait: real) {
    var k := SpellStart(cycles, c);
    exists m :: k <= m < |cycles| && cycles[m].now - cycles[k].now >= wait
  }

  lemma {:induction false} Remembered(cycles: seq<Cycle>, c: Candidate, wait: real)
    ensures var s, k := After(cycles, wait), SpellStart(cycles, c);
            && (c in s.since <==> k < |cycles|)
            && (k < |cycles| ==> s.since[c] == cycles[k].now)
            && (c in s.reported <==> Ripe(cycles, c, wait))
  {
    if cycles != [] {
      var n := |cycles| - 1;
      var before, last := cycles[..n], cycles[n];
      Remembered(before, c, wait);
      RipeOn(before, last, c, wait);
      assert cycles == before + [last];
    }
  }

  lemma RipeOn(before: seq<Cycle>, last: Cycle, c: Candidate, wait: real)
    ensures var cycles := before + [last];
            var k := SpellStart(cycles, c);
            && (c in last.candidates ==> k == SpellStart(before, c))
            && (c !in last.candidates ==> k == |cycles|)
            && (Ripe(cycles, c, wait) <==>
                  c in last.candidates && (Ripe(before, c, wait) || last.now - cycles[k].now >= wait))
  {
    var cycles := before + [last];
    assert cycles[..|before|] == before;
    var k := SpellStart(cycles, c);
    if Ripe(before, c, wait) && c in last.candidates {
      var m :| k <= m < |before| && before[m].now - before[k].now >= wait;
      assert cycles[m] == before[m] && cycles[k] == before[k];
    }
    if Ripe(cycles, c, wait) && c in last.candidates {
      var m :| k <= m < |cycles| && cycles[m].now - cycles[k].now >= wait;
      assert m < |before| ==> before[m] == cycles[m] && before[k] == cycles[k];
    }
    if c in last.candidates && last.now - cycles[k].now >= wait {
      assert cycles[|before|] == last;
    }
  }

  /**
   A candidate is confirmed exactly in the first cycle of a spell that comes long enough after the
   spell's start: once in every unbroken spell that lasts, and never before.
   */
  lemma ConfirmedOnce(before: seq<Cycle>, last: Cycle, c: Candidate, wait: real)
    ensures var k := SpellStart(before + [last], c);
            c in Confirmed(After(before, wait), last, wait) <==>
              c in last.candidates && last.now - (before + [last])[k].now >= wait && !Ripe(before, c, wait)
  {
    Remembered(before, c, wait);
    RipeOn(before, last, c, wait);
  }

  class CycleConfirmer {
    const wait: real
    var since: map<Candidate, real>
    var reported: set<Candidate>
    /** All cycles so far. */
    ghost var cycles: seq<Cycle>

    ghost predicate Valid()
      reads this
    {
      State(since, reported) == After(cycles, wait)
    }

    constructor (wait: real)
      ensures Valid() && cycles == [] && this.wait == wait
    {
      this.wait := wait;
      since, reported, cycles := map[], {}, [];
    }

    /** The candidates confirmed in this cycle; those that have gone are forgotten. */
    method Update(now: real, candidates: set<Candidate>) returns (confirmed: set<Candidate>)
      requires Valid()
      modifies this
      ensures Valid() && cycles == old(cycles) + [Cycle(now, candidates)]
      ensures forall c :: c in confirmed <==> c in candidates && ConfirmedNow(old(cycles), Cycle(now, candidates), c, wait)
    {
      hide Ripe, SpellStart;
      ghost var last := Cycle(now, candidates);
      ghost var before := State(since, reported);
      assert (cycles + [last])[..|cycles|] == cycles;
      since := map c | c in candidates :: if c in since then since[c] else now;
      reported := reported * candidates;
      confirmed := set c | c in candidates && c !in reported && now - since[c] >= wait;
      assert since == Begun(before, last);
      assert confirmed == Confirmed(before, last, wait);
      reported := reported + confirmed;
      forall c ensures c in confirmed <==> c in candidates && ConfirmedNow(cycles, last, c, wait) {
        ConfirmedOnce(cycles, last, c, wait);
      }
      cycles := cycles + [last];
    }
  }

  ghost predicate ConfirmedNow(before: seq<Cycle>, last: Cycle, c: Candidate, wait: real) {
    var k := SpellStart(before + [last], c);
    k <= |before| && last.now - (before + [last])[k].now >= wait && !Ripe(before, c, wait)
  }
}
