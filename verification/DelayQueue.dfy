/** Messages held back for a simulated delay: first in, first out on every link, none lost, early or too late. */
module DelayQueues {
  import opened Options

  type Item = int
  type Link = int

  /** number: when it was pushed, counted over all messages. */
  datatype Entry = Entry(release: real, number: int, item: Item, link: Option<Link>)

  function Max(a: real, b: real): real {
    if a >= b then a else b
  }

  /** The heap's order: by release time, then by push. */
  predicate Before(a: Entry, b: Entry) {
    a.release < b.release || (a.release == b.release && a.number < b.number)
  }

  ghost predicate Ordered(h: seq<Entry>) {
    forall i, j :: 0 <= i < j < |h| ==> Before(h[i], h[j])
  }

  /** Adds an entry where it belongs. */
  function Insert(h: seq<Entry>, e: Entry): (r: seq<Entry>)
    ensures multiset(r) == multiset(h) + multiset{e}
    ensures forall x :: x in r <==> x == e || x in h
  {
    if h == [] || Before(e, h[0]) then [e] + h
    else
      assert h == [h[0]] + h[1..];
      [h[0]] + Insert(h[1..], e)
  }

  lemma {:induction false} InsertOrdered(h: seq<Entry>, e: Entry)
    requires Ordered(h) && forall x :: x in h ==> x.number != e.number
    ensures Ordered(Insert(h, e))
  {
    if h != [] && !Before(e, h[0]) {
      var t := Insert(h[1..], e);
      InsertOrdered(h[1..], e);
      forall x | x in t ensures Before(h[0], x) {
        if x != e {
          assert x in h[1..];
          var k :| 0 <= k < |h[1..]| && h[1..][k] == x;
          assert Before(h[0], h[k + 1]);
        } else {
          assert h[0] in h;
        }
      }
    } else if h != [] {
      assert forall j :: 0 < j < |h| ==> Before(h[0], h[j]);
    }
  }

  // ---------------------------------------------------------------- links

  ghost predicate SameLink(a: Entry, b: Entry) {
    a.link.Some? && a.link == b.link
  }

  /** Of two messages of a link the one pushed first is released no later; numbers tell messages apart. */
  ghost predicate Fair(a: Entry, b: Entry) {
    (a.number == b.number ==> a == b) &&
    (SameLink(a, b) ==> (a.number < b.number ==> a.release <= b.release) && (b.number < a.number ==> b.release <= a.release))
  }

  /** pushed: all messages, at their numbers. */
  ghost predicate History(pushed: seq<Entry>, last: map<Link, real>) {
    && (forall i :: 0 <= i < |pushed| ==> pushed[i].number == i)
    && (forall i, j :: 0 <= i < j < |pushed| && SameLink(pushed[i], pushed[j]) ==> pushed[i].release <= pushed[j].release)
    && (forall i :: 0 <= i < |pushed| && pushed[i].link.Some? ==>
          pushed[i].link.value in last && pushed[i].release <= last[pushed[i].link.value])
  }

  /** Messages of one link have left in the order they were pushed. */
  ghost predicate LeftInOrder(left: seq<Entry>) {
    forall i, j :: 0 <= i < j < |left| && SameLink(left[i], left[j]) ==> left[i].number < left[j].number
  }

  /** Every message pushed is waiting or has left, exactly once, and what has left is ahead of what waits on its link. */
  ghost predicate Split(pushed: seq<Entry>, heap: seq<Entry>, left: seq<Entry>) {
    && multiset(pushed) == multiset(heap) + multiset(left)
    && Ordered(heap) && LeftInOrder(left)
    && (forall a, b :: a in left && b in heap && SameLink(a, b) ==> a.number < b.number)
  }

  lemma Pushed(pushed: seq<Entry>, heap: seq<Entry>, left: seq<Entry>, x: Entry)
    requires multiset(pushed) == multiset(heap) + multiset(left)
    ensures x in pushed <==> x in heap || x in left
  {
    assert x in pushed <==> x in multiset(pushed);
    assert x in heap <==> x in multiset(heap);
    assert x in left <==> x in multiset(left);
  }

  lemma HistoryFair(pushed: seq<Entry>, last: map<Link, real>, a: Entry, b: Entry)
    requires History(pushed, last) && a in pushed && b in pushed
    ensures Fair(a, b) && 0 <= a.number < |pushed|
  {
    var i :| 0 <= i < |pushed| && pushed[i] == a;
    var j :| 0 <= j < |pushed| && pushed[j] == b;
  }

  /** A new message, released no earlier than its link's last one. */
  lemma PushKeeps(pushed: seq<Entry>, last: map<Link, real>, heap: seq<Entry>, left: seq<Entry>, e: Entry)
    requires History(pushed, last) && Split(pushed, heap, left) && e.number == |pushed|
    requires e.link.Some? && e.link.value in last ==> last[e.link.value] <= e.release
    ensures History(pushed + [e], if e.link.Some? then last[e.link.value := e.release] else last)
    ensures Split(pushed + [e], Insert(heap, e), left)
  {
    hide Insert;
    forall x | x in heap || x in left ensures x.number < e.number {
      Pushed(pushed, heap, left, x);
      HistoryFair(pushed, last, x, x);
    }
    InsertOrdered(heap, e);
    assert multiset(pushed + [e]) == multiset(pushed) + multiset{e};
  }

  /** The first message of the heap leaves. */
  lemma PopKeeps(pushed: seq<Entry>, last: map<Link, real>, heap: seq<Entry>, left: seq<Entry>)
    requires History(pushed, last) && Split(pushed, heap, left) && heap != []
    ensures Split(pushed, heap[1..], left + [heap[0]])
  {
    var e, rest := heap[0], heap[1..];
    assert heap == [e] + rest;
    assert multiset(left + [e]) == multiset(left) + multiset{e};
    forall i | 0 <= i < |left| && SameLink(left[i], e) ensures left[i].number < e.number {
      assert left[i] in left && e in heap;
    }
    forall b | b in rest && SameLink(e, b) ensures e.number < b.number {
      var k :| 0 <= k < |rest| && rest[k] == b;
      assert Before(heap[0], heap[k + 1]);
      assert b in heap;
      Pushed(pushed, heap, left, e);
      Pushed(pushed, heap, left, b);
      HistoryFair(pushed, last, e, b);
    }
    RestOrdered(heap);
    forall a, b | a in left + [e] && b in rest && SameLink(a, b) ensures a.number < b.number {
      assert b in heap;
      assert a in left || a == e;
    }
  }

  lemma RestOrdered(heap: seq<Entry>)
    requires Ordered(heap) && heap != []
    ensures Ordered(heap[1..])
  {
  }

  // ---------------------------------------------------------------- when messages are released

  /** When a message was pushed, and its own delay. */
  datatype Moment = Moment(at: real, delay: real) {
    function Due(): real {
      at + Max(0.0, delay)
    }
  }

  /** The time is the one at which a message pushed on the link by then is due on its own. */
  ghost predicate DueOf(pushed: seq<Entry>, moments: seq<Moment>, n: nat, link: Option<Link>, t: real)
    requires n <= |pushed| && n <= |moments|
  {
    exists j :: 0 <= j < n && pushed[j].link == link && t == moments[j].Due()
  }

  /**
   No message is released before it is due on its own, and each when it or one pushed before it on its
   link is due; a link is busy until one of its messages is due.
   */
  ghost predicate Timed(pushed: seq<Entry>, moments: seq<Moment>, last: map<Link, real>) {
    && |moments| == |pushed|
    && (forall i :: 0 <= i < |pushed| ==> moments[i].Due() <= pushed[i].release)
    && (forall i :: 0 <= i < |pushed| ==> DueOf(pushed, moments, i + 1, pushed[i].link, pushed[i].release))
    && (forall l :: l in last ==> DueOf(pushed, moments, |pushed|, Some(l), last[l]))
  }

  lemma DueStays(pushed: seq<Entry>, moments: seq<Moment>, n: nat, link: Option<Link>, t: real, e: Entry, m: Moment, k: nat)
    requires n <= |pushed| && |moments| == |pushed| && DueOf(pushed, moments, n, link, t) && n <= k <= |pushed| + 1
    ensures DueOf(pushed + [e], moments + [m], k, link, t)
  {
    var j :| 0 <= j < n && pushed[j].link == link && t == moments[j].Due();
    assert (pushed + [e])[j] == pushed[j] && (moments + [m])[j] == moments[j];
  }

  lemma TimedOn(pushed: seq<Entry>, moments: seq<Moment>, last: map<Link, real>, e: Entry, m: Moment)
    requires Timed(pushed, moments, last) && e.release == ReleaseOf(last, m.at, m.delay, e.link)
    ensures Timed(pushed + [e], moments + [m], if e.link.Some? then last[e.link.value := e.release] else last)
  {
    hide DueOf;
    var more, later := pushed + [e], moments + [m];
    var n := |pushed|;
    if e.release == m.Due() {
      assert more[n] == e && later[n] == m;
      OwnDue(more, later, n);
    } else {
      BusyUntil(pushed, moments, last, e.link.value);
      DueStays(pushed, moments, n, e.link, e.release, e, m, n + 1);
    }
    forall i | 0 <= i < n ensures DueOf(more, later, i + 1, more[i].link, more[i].release) {
      DueStays(pushed, moments, i + 1, pushed[i].link, pushed[i].release, e, m, i + 1);
    }
    forall l | l in last ensures DueOf(more, later, n + 1, Some(l), last[l]) {
      DueStays(pushed, moments, n, Some(l), last[l], e, m, n + 1);
    }
  }

  lemma BusyUntil(pushed: seq<Entry>, moments: seq<Moment>, last: map<Link, real>, l: Link)
    requires Timed(pushed, moments, last) && l in last
    ensures DueOf(pushed, moments, |pushed|, Some(l), last[l])
  {
    hide DueOf;
    assert exists k :: k == l && k in last;
  }

  lemma OwnDue(pushed: seq<Entry>, moments: seq<Moment>, n: nat)
    requires n < |pushed| && |moments| == |pushed|
    ensures DueOf(pushed, moments, n + 1, pushed[n].link, moments[n].Due())
  {
  }

  class DelayQueue {
    var heap: seq<Entry>
    var number: int
    var last: map<Link, real>
    /** All messages pushed, and all that have left, in the order they did. */
    ghost var pushed: seq<Entry>
    ghost var left: seq<Entry>
    /** When the messages were pushed. */
    ghost var moments: seq<Moment>

    ghost predicate Valid()
      reads this
    {
      number == |pushed| && History(pushed, last) && Split(pushed, heap, left) && Timed(pushed, moments, last)
    }

    constructor ()
      ensures Valid() && heap == [] && left == [] && pushed == [] && moments == [] && last == map[]
    {
      heap, number, last, pushed, left, moments := [], 0, map[], [], [], [];
    }

    /** Holds an item back for the delay, or longer if its link is still busy. */
    method Push(item: Item, now: real, delay: real, link: Option<Link>) returns (release: real)
      requires Valid()
      modifies this
      ensures Valid() && left == old(left)
      ensures release == ReleaseOf(old(last), now, delay, link)
      ensures pushed == old(pushed) + [Entry(release, old(number), item, link)]
      ensures moments == old(moments) + [Moment(now, delay)]
      ensures last == if link.Some? then old(last)[link.value := release] else old(last)
    {
      hide History, Split, Insert, Timed;
      release := now + Max(0.0, delay);
      if link.Some? {
        release := Max(release, if link.value in last then last[link.value] else release);
      }
      var e := Entry(release, number, item, link);
      PushKeeps(pushed, last, heap, left, e);
      TimedOn(pushed, moments, last, e, Moment(now, delay));
      if link.Some? {
        last := last[link.value := release];
      }
      heap := Insert(heap, e);
      number := number + 1;
      pushed := pushed + [e];
      moments := moments + [Moment(now, delay)];
    }

    /** Takes out everything whose time has come, in order: nothing early, nothing due left behind. */
    method PopReady(now: real) returns (ready: seq<Item>)
      requires Valid()
      modifies this`heap, this`left
      ensures Valid() && old(left) <= left && Due(left[|old(left)|..], ready, now)
      ensures forall e :: e in heap ==> e.release > now
    {
      hide History, Split, Timed;
      ready := [];
      ghost var out: seq<Entry> := [];
      while heap != [] && heap[0].release <= now
        invariant Valid() && left == old(left) + out && |out| == |ready|
        invariant forall i :: 0 <= i < |out| ==> out[i].release <= now && out[i].item == ready[i]
        invariant Ahead(out, heap)
        decreases |heap|
      {
        OneAhead(pushed, out, heap, left);
        PopKeeps(pushed, last, heap, left);
        ready := ready + [heap[0].item];
        out := out + [heap[0]];
        left := left + [heap[0]];
        heap := heap[1..];
      }
      NothingDue(pushed, heap, left, now);
    }
  }

  /** The items of these messages, none of them early, by release time and then by when they were pushed. */
  ghost predicate Due(out: seq<Entry>, items: seq<Item>, now: real) {
    && |out| == |items| && (forall i :: 0 <= i < |out| ==> out[i].release <= now && out[i].item == items[i])
    && forall i, j :: 0 <= i < j < |out| ==>
         out[i].release < out[j].release || (out[i].release == out[j].release && out[i].number < out[j].number)
  }

  /** What has been taken out is in order and before all that waits. */
  ghost predicate Ahead(out: seq<Entry>, heap: seq<Entry>) {
    Ordered(out) && forall a, b :: a in out && b in heap ==> Before(a, b)
  }

  lemma OneAhead(pushed: seq<Entry>, out: seq<Entry>, heap: seq<Entry>, left: seq<Entry>)
    requires Split(pushed, heap, left) && Ahead(out, heap) && heap != []
    ensures Ahead(out + [heap[0]], heap[1..])
  {
    forall b | b in heap[1..] ensures Before(heap[0], b) && b in heap {
      var k :| 0 <= k < |heap[1..]| && heap[1..][k] == b;
      assert b == heap[k + 1];
    }
    forall j | 0 <= j < |out| ensures Before(out[j], heap[0]) {
      assert out[j] in out && heap[0] in heap;
    }
  }

  lemma NothingDue(pushed: seq<Entry>, heap: seq<Entry>, left: seq<Entry>, now: real)
    requires Split(pushed, heap, left) && (heap == [] || heap[0].release > now)
    ensures forall e :: e in heap ==> e.release > now
  {
    forall e | e in heap ensures e.release > now {
      var k :| 0 <= k < |heap| && heap[k] == e;
      assert k > 0 ==> Before(heap[0], heap[k]);
    }
  }

  // ---------------------------------------------------------------- how late a message can be

  function ReleaseOf(last: map<Link, real>, now: real, delay: real, link: Option<Link>): real {
    var own := now + Max(0.0, delay);
    if link.Some? && link.value in last then Max(own, last[link.value]) else own
  }

  /**
   Whatever was pushed and taken out: with push times that never go back and delays of at most
   `largest`, no message is released before its push or more than `largest` after it.
   */
  lemma NeverLater(q: DelayQueue, largest: real)
    requires q.Valid() && largest >= 0.0
    requires forall i :: 0 <= i < |q.moments| ==> q.moments[i].delay <= largest
    requires forall i, j :: 0 <= i < j < |q.moments| ==> q.moments[i].at <= q.moments[j].at
    ensures |q.moments| == |q.pushed|
    ensures forall i :: 0 <= i < |q.pushed| ==> q.moments[i].at <= q.pushed[i].release <= q.moments[i].at + largest
  {
    hide History, Split;
    forall i | 0 <= i < |q.pushed| ensures q.moments[i].at <= q.pushed[i].release <= q.moments[i].at + largest {
      assert DueOf(q.pushed, q.moments, i + 1, q.pushed[i].link, q.pushed[i].release);
      var j :| 0 <= j < i + 1 && q.pushed[i].release == q.moments[j].Due();
      assert j < i ==> q.moments[j].at <= q.moments[i].at;
    }
  }
}
