/** E-stop requests from many browser threads: what is shown as released really was released last. */
module EstopDesk {
  import opened EventLog
  import opened Options
  import S = StateStoring

  /** What a robot answered to the reset of its latch. */
  datatype Reset = Done | Rejected | NoServer | Error | Timeout | Pending | NotConfigured

  /** A release that waits for resets.  failed: robots whose value could not be published. */
  datatype Release = Release(target: Target, requireAck: bool, failed: set<Robot>, reset: map<Robot, Reset>) {
    predicate Waits() {
      exists r :: r in reset && reset[r] == Pending
    }

    /** Robots that cannot be taken for released. */
    function Latched(): (s: set<Robot>)
      ensures forall r :: r in s <==> r in failed || (r in reset && !Released(reset[r], requireAck))
    {
      failed + set r | r in reset && !Released(reset[r], requireAck)
    }
  }

  predicate Released(r: Reset, requireAck: bool) {
    r == Done || r == NotConfigured || (r == NoServer && !requireAck)
  }

  /**
   The robot cannot be taken for released: its value was not published, or its reset failed or was not
   answered, or there was nobody to reset where an acknowledgement is wanted.
   */
  ghost predicate StillHeld(r: Release, robot: Robot) {
    robot in r.failed ||
    (robot in r.reset &&
     (r.reset[robot] in {Rejected, Error, Timeout, Pending} || (r.requireAck && r.reset[robot] == NoServer)))
  }

  lemma LatchedAreHeld(r: Release, robot: Robot)
    ensures robot in r.Latched() <==> StillHeld(r, robot)
  {
  }

  /** A release that was shown for a target, and its number. */
  datatype Freeing = Freeing(number: nat, release: Release)

  /**
   What is shown and what was really done.  published: last value sent to each target; stopped:
   number of the last activation of a target; freed: the last release that was shown for it.
   */
  datatype Board = Board(estops: map<Target, bool>, gen: nat, known: set<Robot>, published: map<Target, bool>,
                         stopped: map<Target, nat>, freed: map<Target, Freeing>)

  /**
   A target that was once stopped is shown free only if a later release freed it, false is its last
   value, and that release did not find its robot latched.
   */
  ghost predicate ShownFree(b: Board, k: Target)
    requires k in b.stopped
  {
    && k in b.freed && b.freed[k].number > b.stopped[k] && Covers(b.freed[k].release, k)
    && k in b.published && !b.published[k]
    && (k.One? ==> !StillHeld(b.freed[k].release, k.robot))
  }

  ghost predicate BoardOk(b: Board) {
    && (forall k :: k in b.estops && !b.estops[k] && k in b.stopped ==> ShownFree(b, k))
    && (forall k :: k in b.stopped ==> b.stopped[k] <= b.gen && k in b.estops && (k.One? ==> k.robot in b.known))
  }

  /** The targets a release speaks to: all robots known when it began, if it is for all. */
  predicate Covers(r: Release, k: Target) {
    k == r.target || (r.target == All && k.One? && (k.robot in r.reset || k.robot in r.failed))
  }

  predicate Failed(r: Release, k: Target) {
    k.One? && k.robot in r.failed
  }

  function Stop(b: Board, target: Target, failed: bool): Board {
    b.(gen := b.gen + 1, stopped := b.stopped[target := b.gen + 1], estops := S.EstopTable(b.estops, target, true, {}),
       published := if failed then b.published else b.published[target := true])
  }

  /** A release is sent out: its values are published, nothing is shown yet. */
  function Send(b: Board, r: Release): Board {
    var single := if Failed(r, r.target) then b.published else b.published[r.target := false];
    b.(gen := b.gen + 1,
       published := if r.target == All then single + map x | x in r.reset.Keys - r.failed :: One(x) := false else single)
  }

  function Show(b: Board, r: Release): Board {
    var shown := S.EstopTable(b.estops, r.target, false, r.Latched());
    b.(estops := shown, freed := b.freed + map k | k in shown && !shown[k] && Covers(r, k) :: Freeing(b.gen, r))
  }

  /** The release was the last operation begun: its values are the last ones, after every activation. */
  ghost predicate Latest(b: Board, r: Release) {
    && (r.target.One? ==> r.target.robot in b.known)
    && (forall k :: k in b.stopped ==> b.stopped[k] < b.gen)
    && (forall k :: Covers(r, k) && !Failed(r, k) ==> k in b.published && !b.published[k])
    && (r.target == All ==> forall k :: k in b.stopped ==> Covers(r, k))
  }

  /** A release for all tries every known robot; each either fails or gets a reset state. */
  ghost predicate Complete(b: Board, r: Release) {
    r.target == All ==> b.known <= r.reset.Keys + r.failed
  }

  lemma StopOk(b: Board, target: Target, failed: bool)
    requires BoardOk(b) && (target.One? ==> target.robot in b.known)
    ensures BoardOk(Stop(b, target, failed))
  {
    var c := Stop(b, target, failed);
    forall k | k in c.estops && !c.estops[k] && k in c.stopped ensures ShownFree(c, k) {
      assert k != target && ShownFree(b, k);
    }
  }

  lemma SendOk(b: Board, r: Release)
    requires BoardOk(b) && (r.target.One? ==> r.target.robot in b.known) && Complete(b, r)
    ensures BoardOk(Send(b, r)) && Latest(Send(b, r), r)
  {
    var c := Send(b, r);
    forall k | k in c.estops && !c.estops[k] && k in c.stopped ensures ShownFree(c, k) {
      assert ShownFree(b, k);
    }
  }

  /** Showing the latest release: only what it published and did not find latched is shown free. */
  lemma ShowOk(b: Board, r: Release)
    requires BoardOk(b) && Latest(b, r)
    ensures BoardOk(Show(b, r))
  {
    hide StillHeld, Released, S.EstopTable, Release.Latched;
    var c := Show(b, r);
    S.EstopTableMeans(b.estops, r.target, false, r.Latched());
    forall k | k in c.estops && !c.estops[k] && k in c.stopped ensures ShownFree(c, k) {
      if Covers(r, k) {
        if k.One? {
          ShownNotHeld(b.estops, r, k);
        }
      } else {
        assert r.target.One? && k != r.target && k in c.estops.Keys && !S.ShownStopped(c.estops, k);
        assert ShownFree(b, k);
      }
    }
  }

  lemma ShownNotHeld(estops: map<Target, bool>, r: Release, k: Target)
    requires k.One? && Covers(r, k) && !S.ShownStopped(S.EstopTable(estops, r.target, false, r.Latched()), k)
    requires k in S.EstopTable(estops, r.target, false, r.Latched())
    ensures !StillHeld(r, k.robot)
  {
    hide StillHeld, Released;
    LatchedAreHeld(r, k.robot);
    S.EstopTableMeans(estops, r.target, false, r.Latched());
  }

  // ---------------------------------------------------------------- the request handler

  datatype Answer = Unknown | FleetStopped | Shown | Waits(number: nat)

  class Desk {
    var estops: map<Target, bool>
    var gen: nat
    var known: set<Robot>
    /** Releases that wait for their resets, by the number of the operation. */
    var waiting: map<nat, Release>
    ghost var published: map<Target, bool>
    ghost var stopped: map<Target, nat>
    ghost var freed: map<Target, Freeing>
    /** The numbers of the operations whose results were shown, in the order they were. */
    ghost var shown: seq<nat>

    ghost function Now(): Board
      reads this
    {
      Board(estops, gen, known, published, stopped, freed)
    }

    ghost predicate Valid()
      reads this
    {
      BoardOk(Now()) && WaitingOk(Now(), waiting, shown)
    }

    constructor ()
      ensures Valid() && estops == map[All := false] && known == {} && waiting == map[] && gen == 0
    {
      estops, gen, known, waiting := map[All := false], 0, {}, map[];
      published, stopped, freed, shown := map[], map[], map[], [];
    }

    method Discover(r: Robot)
      requires Valid()
      modifies this`known
      ensures Valid() && known == old(known) + {r}
    {
      hide Released;
      DiscoverOk(Now(), r);
      known := known + {r};
    }

    /** Stops a target: it is shown stopped at once. */
    method Activate(target: Target, failed: bool) returns (answer: Answer)
      requires Valid()
      modifies this
      ensures Valid() && known == old(known) && waiting == old(waiting)
      ensures if target.One? && target.robot !in known then answer == Unknown && Now() == old(Now()) && shown == old(shown)
              else answer == Shown && gen == old(gen) + 1 && estops == old(estops)[target := true] &&
                   shown == old(shown) + [gen] && (!failed ==> published == old(published)[target := true])
    {
      hide BoardOk, WaitingOk, Latest;
      if target.One? && target.robot !in known {
        return Unknown;
      }
      StopOk(Now(), target, failed);
      NewOperation(Now(), Stop(Now(), target, failed), waiting, shown);
      gen := gen + 1;
      estops := estops[target := true];
      stopped := stopped[target := gen];
      published := if failed then published else published[target := true];
      shown := shown + [gen];
      answer := Shown;
    }

    /**
     Begins a release: publishes false, and shows the result at once if no reset is outstanding.
     A single robot is not released while the whole fleet is stopped.
     */
    method BeginRelease(r: Release) returns (answer: Answer)
      requires Valid() && Complete(Now(), r)
      modifies this
      ensures Valid() && known == old(known)
      ensures (r.target.One? && r.target.robot !in known <==> answer == Unknown)
      ensures answer == FleetStopped <==> r.target.One? && r.target.robot in known && All in old(estops) && old(estops)[All]
      ensures answer == Unknown || answer == FleetStopped ==>
                Now() == old(Now()) && waiting == old(waiting) && shown == old(shown)
      ensures answer == Shown ==>
                !r.Waits() && estops == S.EstopTable(old(estops), r.target, false, r.Latched()) && gen == old(gen) + 1 &&
                waiting == old(waiting) && shown == old(shown) + [gen]
      ensures answer.Waits? ==>
                r.Waits() && estops == old(estops) && gen == old(gen) + 1 && answer.number == gen &&
                waiting == old(waiting)[gen := r] && shown == old(shown)
    {
      hide Released, BoardOk, Latest, WaitingOk, S.EstopTable, Send, Show, Complete, Release.Waits, Release.Latched;
      ShowIs(Now(), r);
      SendIs(Now(), r);
      if r.target.One? && r.target.robot !in known {
        return Unknown;
      }
      if r.target.One? && All in estops && estops[All] {
        return FleetStopped;
      }
      SendOk(Now(), r);
      NewOperation(Now(), Send(Now(), r), waiting, shown);
      ghost var sent := Send(Now(), r);
      published := sent.published;
      gen := gen + 1;
      if r.Waits() {
        waiting := waiting[gen := r];
        answer := Waits(gen);
      } else {
        ghost var before := Now();
        ShowIs(before, r);
        NewOperation(old(Now()), Show(before, r), waiting, shown);
        ShowNow(r);
        answer := Shown;
      }
    }

    method ShowNow(r: Release)
      requires BoardOk(Now()) && Latest(Now(), r)
      modifies this`estops, this`freed, this`shown
      ensures Now() == Show(old(Now()), r) && BoardOk(Now()) && shown == old(shown) + [gen]
    {
      hide Released;
      ShowOk(Now(), r);
      freed := Show(Now(), r).freed;
      estops := S.EstopTable(estops, r.target, false, r.Latched());
      shown := shown + [gen];
    }

    /** A robot answers the reset of a waiting release. */
    method SetReset(number: nat, robot: Robot, state: Reset)
      requires Valid() && number in waiting && robot in waiting[number].reset
      modifies this`waiting
      ensures Valid() && waiting == old(waiting)[number := old(waiting)[number].(reset := old(waiting)[number].reset[robot := state])]
    {
      hide BoardOk, Released;
      waiting := waiting[number := waiting[number].(reset := waiting[number].reset[robot := state])];
    }

    /** Resets still unanswered when the wait is over count as timed out. */
    method EndWait(number: nat)
      requires Valid() && number in waiting
      modifies this`waiting
      ensures Valid() && number in waiting && !waiting[number].Waits()
      ensures waiting == old(waiting)[number := old(waiting)[number].(reset := waiting[number].reset)]
      ensures waiting[number].reset.Keys == old(waiting)[number].reset.Keys
      ensures forall r :: r in old(waiting)[number].reset && old(waiting)[number].reset[r] != Pending ==>
                r in waiting[number].reset && waiting[number].reset[r] == old(waiting)[number].reset[r]
      ensures forall r :: r in old(waiting)[number].reset && old(waiting)[number].reset[r] == Pending ==>
                r in waiting[number].Latched()
    {
      hide BoardOk;
      var w := waiting[number];
      waiting := waiting[number := w.(reset := map r | r in w.reset :: if w.reset[r] == Pending then Timeout else w.reset[r])];
    }

    /**
     Ends a waiting release.  Its result is shown exactly if no other operation has begun since;
     so it never clears a later activation.
     */
    method FinishRelease(number: nat) returns (committed: bool)
      requires Valid() && number in waiting && !waiting[number].Waits()
      modifies this
      ensures Valid() && gen == old(gen) && known == old(known) && waiting == old(waiting) - {number}
      ensures committed <==> number == gen
      ensures estops == if committed then S.EstopTable(old(estops), old(waiting)[number].target, false, old(waiting)[number].Latched())
                        else old(estops)
      ensures shown == if committed then old(shown) + [number] else old(shown)
    {
      hide Released;
      var r := waiting[number];
      waiting := waiting - {number};
      committed := number == gen;
      if committed {
        ShowNow(r);
      }
    }
  }

  lemma SendIs(b: Board, r: Release)
    ensures Send(b, r) == b.(gen := b.gen + 1, published := Send(b, r).published)
  {
  }

  lemma ShowIs(b: Board, r: Release)
    ensures var c := Show(b, r);
            c == b.(estops := S.EstopTable(b.estops, r.target, false, r.Latched()), freed := c.freed)
  {
    hide S.EstopTable;
  }

  /** Waiting releases are of the past, or the latest operation; results were shown in the order the operations began. */
  ghost predicate WaitingOk(b: Board, waiting: map<nat, Release>, shown: seq<nat>) {
    && (forall n :: n in waiting ==> n <= b.gen && (n == b.gen ==> Latest(b, waiting[n])) && n !in shown)
    && (forall i :: 0 <= i < |shown| ==> shown[i] <= b.gen)
    && (forall i, j :: 0 <= i < j < |shown| ==> shown[i] < shown[j])
  }

  /** A new operation puts every waiting release into the past. */
  lemma NewOperation(b: Board, c: Board, waiting: map<nat, Release>, shown: seq<nat>)
    requires WaitingOk(b, waiting, shown) && c.gen == b.gen + 1
    ensures WaitingOk(c, waiting, shown) && WaitingOk(c, waiting, shown + [c.gen])
    ensures forall r :: Latest(c, r) ==> WaitingOk(c, waiting[c.gen := r], shown)
  {
    hide Latest;
  }

  lemma DiscoverOk(b: Board, r: Robot)
    requires BoardOk(b)
    ensures BoardOk(b.(known := b.known + {r}))
  {
    var c := b.(known := b.known + {r});
    forall k | k in c.estops && !c.estops[k] && k in c.stopped ensures ShownFree(c, k) {
      assert ShownFree(b, k);
    }
  }
}
