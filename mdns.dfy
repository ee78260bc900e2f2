// The mDNS engine of netconnector (bin/netconnector/mdns/mdns.cc): agents
// schedule questions and resource records on time-ordered queues, and
// SendMessage gathers everything due within the aggregation window into one
// outbound DNS message, skipping cancelled and repeated resources and
// marking the resources it sent with TTL 0 as cancelled. The agents, the
// transceiver and the clock are outside the model: agents are identities,
// the transceiver is the log of sent messages, and the clock is a
// parameter. The resources' time_to_live_ fields are shared with the agents
// that own them, so they are passed in and handed back as a map.

module Mdns {
  import opened Base

  type AgentId = nat
  type QuestionId = nat
  type ResourceId = nat

  /** kCancelTimeToLive: the largest `uint32_t`, the TTL of a cancelled resource. */
  const kCancelTimeToLive: nat := 0xFFFF_FFFF

  /** kMessageAggregationWindowSize: 100 ms, in the nanoseconds of a time point. */
  const kMessageAggregationWindow: int := 100_000_000

  datatype Section = Answer | Authority | Additional | Expired

  /** An entry of one of the time-ordered queues: when it is due, and what. */
  datatype Timed<T> = Timed(time: int, item: T)

  /** A resource queued for a section. */
  datatype Pending = Pending(resource: ResourceId, section: Section)

  /** An outbound message: its sections and the two header flags SendMessage sets. */
  datatype Message = Message(
    questions: seq<QuestionId>,
    answers: seq<ResourceId>,
    authorities: seq<ResourceId>,
    additionals: seq<ResourceId>,
    response: bool,
    authoritative: bool)

  // ---------------------------------------------------------------------
  // Time-ordered queues

  /** The queue is ordered by time: its head is the entry the priority queue's top() returns. */
  predicate Sorted<T>(q: seq<Timed<T>>)
  {
    forall i, j :: 0 <= i < j < |q| ==> q[i].time <= q[j].time
  }

  /** The queue after emplace(): the new entry goes after every entry due no later than it. */
  function Insert<T>(q: seq<Timed<T>>, e: Timed<T>): (r: seq<Timed<T>>)
    ensures |r| == |q| + 1
  {
    if |q| == 0 then [e]
    else if q[0].time <= e.time then [q[0]] + Insert(q[1..], e)
    else [e] + q
  }

  /** Insertion adds exactly the new entry. */
  lemma {:induction false} InsertMultiset<T>(q: seq<Timed<T>>, e: Timed<T>)
    ensures multiset(Insert(q, e)) == multiset(q) + multiset{e}
  {
    if |q| > 0 && q[0].time <= e.time {
      InsertMultiset(q[1..], e);
      assert q == [q[0]] + q[1..];
    }
  }

  /** Insertion keeps the queue ordered. */
  lemma {:induction false} InsertSorted<T>(q: seq<Timed<T>>, e: Timed<T>)
    requires Sorted(q)
    ensures Sorted(Insert(q, e))
  {
    if |q| > 0 && q[0].time <= e.time {
      var tail := Insert(q[1..], e);
      InsertSorted(q[1..], e);
      InsertMultiset(q[1..], e);
      forall k | 0 <= k < |tail|
        ensures q[0].time <= tail[k].time
      {
        assert tail[k] in multiset(q[1..]) + multiset{e};
        if tail[k] != e {
          var j :| 0 <= j < |q[1..]| && q[1..][j] == tail[k];
          assert q[1..][j] == q[j + 1];
        }
      }
      SortedCons(q[0], tail);
    } else if |q| > 0 {
      SortedCons(e, q);
    }
  }

  /** An entry due no later than every entry of an ordered queue can head it. */
  lemma SortedCons<T>(x: Timed<T>, t: seq<Timed<T>>)
    requires Sorted(t) && forall k :: 0 <= k < |t| ==> x.time <= t[k].time
    ensures Sorted([x] + t)
  {
    var r := [x] + t;
    forall i, j | 0 <= i < j < |r|
      ensures r[i].time <= r[j].time
    {
      assert r[j] == t[j - 1];
      if i > 0 {
        assert r[i] == t[i - 1];
      }
    }
  }

  /** The head of an insertion is the old head or the new entry. */
  lemma InsertHead<T>(q: seq<Timed<T>>, e: Timed<T>)
    ensures Insert(q, e)[0] == (if |q| > 0 && q[0].time <= e.time then q[0] else e)
  {
  }

  /** The number of entries at the head of the queue that are due by `now`. */
  function DueCount<T>(q: seq<Timed<T>>, now: int): (r: nat)
    ensures r <= |q|
    ensures r < |q| ==> q[r].time > now
  {
    if |q| > 0 && q[0].time <= now then 1 + DueCount(q[1..], now) else 0
  }

  /** On an ordered queue, the due entries are exactly those whose time is at most `now`. */
  lemma {:induction false} DueSplit<T>(q: seq<Timed<T>>, now: int)
    requires Sorted(q)
    ensures forall i :: 0 <= i < |q| ==> (i < DueCount(q, now) <==> q[i].time <= now)
  {
    if |q| > 0 && q[0].time <= now {
      DueSplit(q[1..], now);
      forall i | 0 < i < |q|
        ensures i < DueCount(q, now) <==> q[i].time <= now
      {
        assert q[1..][i - 1] == q[i];
      }
    }
  }

  /** The items of the entries, in queue order. */
  function Items<T>(q: seq<Timed<T>>): (r: seq<T>)
    ensures |r| == |q| && forall i :: 0 <= i < |q| ==> r[i] == q[i].item
  {
    seq(|q|, i requires 0 <= i < |q| => q[i].item)
  }

  /** The queue without the entries of one agent, in the order they were drained. */
  function Without(q: seq<Timed<AgentId>>, agent: AgentId): (r: seq<Timed<AgentId>>)
  {
    if |q| == 0 then []
    else Without(q[..|q| - 1], agent) + (if q[|q| - 1].item != agent then [q[|q| - 1]] else [])
  }

  /** Removing an agent's entries keeps every other entry, in order, and nothing of that agent. */
  lemma {:induction false} WithoutFacts(q: seq<Timed<AgentId>>, agent: AgentId)
    requires Sorted(q)
    ensures Sorted(Without(q, agent))
    ensures forall e :: e in Without(q, agent) <==> e in q && e.item != agent
  {
    if |q| > 0 {
      var p := q[..|q| - 1];
      WithoutFacts(p, agent);
      assert q == p + [q[|q| - 1]];
      forall e | e in Without(p, agent)
        ensures e.time <= q[|q| - 1].time
      {
        var i :| 0 <= i < |p| && p[i] == e;
        assert p[i] == q[i];
      }
    }
  }

  // ---------------------------------------------------------------------
  // Gathering the due resources

  /** Whether the resource was cancelled while it waited in the queue. */
  predicate Cancelled(ttl: map<ResourceId, nat>, r: ResourceId)
  {
    r in ttl && ttl[r] == kCancelTimeToLive
  }

  /** The message sections under construction and the resources already added to them. */
  datatype Gathered = Gathered(
    answers: seq<ResourceId>,
    authorities: seq<ResourceId>,
    additionals: seq<ResourceId>,
    added: set<ResourceId>)

  const kNothingGathered := Gathered([], [], [], {})

  /** All resources of the three sections. */
  function AllOf(g: Gathered): seq<ResourceId>
  {
    g.answers + g.authorities + g.additionals
  }

  /**
   * One due entry: a cancelled resource or one already added is skipped;
   * otherwise it is added and goes to its section (an expired entry, which
   * is never queued, goes to none).
   */
  function Gather(g: Gathered, e: Pending, ttl: map<ResourceId, nat>): Gathered
  {
    if Cancelled(ttl, e.resource) || e.resource in g.added then g
    else
      var h := g.(added := g.added + {e.resource});
      match e.section
      case Answer => h.(answers := h.answers + [e.resource])
      case Authority => h.(authorities := h.authorities + [e.resource])
      case Additional => h.(additionals := h.additionals + [e.resource])
      case Expired => h
  }

  /** The due entries, gathered in queue order. */
  function GatherAll(es: seq<Timed<Pending>>, ttl: map<ResourceId, nat>): Gathered
  {
    if |es| == 0 then kNothingGathered
    else Gather(GatherAll(es[..|es| - 1], ttl), es[|es| - 1].item, ttl)
  }

  /** No resource appears twice among the sections. */
  predicate Distinct(s: seq<ResourceId>)
  {
    forall i, j :: 0 <= i < j < |s| ==> s[i] != s[j]
  }

  /** The added set holds a resource iff some entry brings it and it is not cancelled. */
  lemma {:induction false} GatheredIff(es: seq<Timed<Pending>>, ttl: map<ResourceId, nat>)
    ensures forall r :: r in GatherAll(es, ttl).added <==>
      !Cancelled(ttl, r) && exists i :: 0 <= i < |es| && es[i].item.resource == r
  {
    if |es| > 0 {
      var p := es[..|es| - 1];
      GatheredIff(p, ttl);
      forall r | !Cancelled(ttl, r) && exists i :: 0 <= i < |es| && es[i].item.resource == r
        ensures r in GatherAll(es, ttl).added
      {
        var i :| 0 <= i < |es| && es[i].item.resource == r;
        if i < |p| {
          assert p[i] == es[i];
        }
      }
      forall r | r in GatherAll(es, ttl).added
        ensures exists i :: 0 <= i < |es| && es[i].item.resource == r
      {
        if r in GatherAll(p, ttl).added {
          var i :| 0 <= i < |p| && p[i].item.resource == r;
          assert es[i] == p[i];
        } else {
          assert es[|es| - 1].item.resource == r;
        }
      }
    }
  }

  /**
   * Every resource in the sections was added, none appears twice, and none is
   * cancelled; when no expired entry is gathered, the sections hold every
   * added resource.
   */
  lemma {:induction false} GatheredSections(es: seq<Timed<Pending>>, ttl: map<ResourceId, nat>)
    ensures forall r :: r in AllOf(GatherAll(es, ttl)) ==> r in GatherAll(es, ttl).added && !Cancelled(ttl, r)
    ensures Distinct(AllOf(GatherAll(es, ttl)))
    ensures (forall i :: 0 <= i < |es| ==> es[i].item.section != Expired) ==>
      forall r :: r in GatherAll(es, ttl).added ==> r in AllOf(GatherAll(es, ttl))
  {
    if |es| > 0 {
      var p := es[..|es| - 1];
      GatheredSections(p, ttl);
      var g, e := GatherAll(p, ttl), es[|es| - 1].item;
      if !(Cancelled(ttl, e.resource) || e.resource in g.added) {
        AppendDistinct(g, e, ttl);
      }
      if forall i :: 0 <= i < |es| ==> es[i].item.section != Expired {
        assert forall i :: 0 <= i < |p| ==> p[i].item.section != Expired by {
          forall i | 0 <= i < |p| ensures p[i] == es[i] { }
        }
      }
    }
  }

  /** Adding a resource not yet added keeps the sections distinct and within the added set. */
  lemma AppendDistinct(g: Gathered, e: Pending, ttl: map<ResourceId, nat>)
    requires Distinct(AllOf(g)) && forall r :: r in AllOf(g) ==> r in g.added
    requires e.resource !in g.added && !Cancelled(ttl, e.resource)
    ensures Distinct(AllOf(Gather(g, e, ttl)))
  {
    var h := Gather(g, e, ttl);
    match e.section
    case Answer =>
      assert AllOf(g) == g.answers + (g.authorities + g.additionals);
      DistinctInsert(g.answers, g.authorities + g.additionals, e.resource);
      assert g.answers + [e.resource] + (g.authorities + g.additionals) == AllOf(h);
    case Authority =>
      assert AllOf(h) == g.answers + g.authorities + [e.resource] + g.additionals;
      DistinctInsert(g.answers + g.authorities, g.additionals, e.resource);
    case Additional =>
      assert AllOf(h) == AllOf(g) + [e.resource] + [];
      DistinctInsert(AllOf(g), [], e.resource);
    case Expired =>
  }

  /** Placing a fresh element between two parts of a distinct sequence keeps it distinct. */
  lemma DistinctInsert(a: seq<ResourceId>, b: seq<ResourceId>, x: ResourceId)
    requires Distinct(a + b) && x !in a + b
    ensures Distinct(a + [x] + b)
  {
    var s, t := a + [x] + b, a + b;
    forall k | 0 <= k < |s|
      ensures s[k] == (if k < |a| then t[k] else if k == |a| then x else t[k - 1])
    {
    }
    forall i, j | 0 <= i < j < |s|
      ensures s[i] != s[j]
    {
      if i != |a| && j != |a| {
        var i', j' := if i < |a| then i else i - 1, if j < |a| then j else j - 1;
        assert i' < j' && s[i] == t[i'] && s[j] == t[j'];
      } else {
        assert x in t ==> false;
      }
    }
  }

  // ---------------------------------------------------------------------
  // Sending

  /** A resource sent with TTL 0 is marked cancelled. */
  function CancelIfZero(ttl: map<ResourceId, nat>, r: ResourceId): map<ResourceId, nat>
  {
    if r in ttl && ttl[r] == 0 then ttl[r := kCancelTimeToLive] else ttl
  }

  /** The TTLs after marking each resource of `rs`, in order. */
  function CancelSent(ttl: map<ResourceId, nat>, rs: seq<ResourceId>): map<ResourceId, nat>
  {
    if |rs| == 0 then ttl else CancelIfZero(CancelSent(ttl, rs[..|rs| - 1]), rs[|rs| - 1])
  }

  /** Exactly the sent resources with TTL 0 become cancelled; every other TTL is kept. */
  lemma {:induction false} CancelSentFacts(ttl: map<ResourceId, nat>, rs: seq<ResourceId>)
    ensures CancelSent(ttl, rs).Keys == ttl.Keys
    ensures forall r :: r in ttl ==>
      CancelSent(ttl, rs)[r] == if r in rs && ttl[r] == 0 then kCancelTimeToLive else ttl[r]
  {
    if |rs| > 0 {
      var p := rs[..|rs| - 1];
      CancelSentFacts(ttl, p);
      assert rs == p + [rs[|rs| - 1]];
      forall r | r in ttl
        ensures CancelSent(ttl, rs)[r] == if r in rs && ttl[r] == 0 then kCancelTimeToLive else ttl[r]
      {
        assert r in rs <==> r in p || r == rs[|rs| - 1];
      }
    }
  }

  /** What one SendMessage call does to the two queues and the log of sent messages. */
  datatype Outbox = Outbox(
    questions: seq<Timed<QuestionId>>,
    resources: seq<Timed<Pending>>,
    sent: seq<Message>)

  /**
   * The message SendMessage builds at `now`: the due questions, and the due
   * resources gathered into their sections; none when nothing was added.
   * Without questions it is flagged as an authoritative response.
   */
  function Outgoing(o: Outbox, ttl: map<ResourceId, nat>, now: int): Option<Message>
  {
    var k := DueCount(o.questions, now);
    var g := GatherAll(o.resources[..DueCount(o.resources, now)], ttl);
    if k == 0 && g.added == {} then None
    else Some(Message(Items(o.questions[..k]), g.answers, g.authorities, g.additionals, k == 0, k == 0))
  }

  /** The TTLs after sending: each section's resources marked in turn. */
  function SentTtl(ttl: map<ResourceId, nat>, m: Option<Message>): map<ResourceId, nat>
  {
    match m
    case None => ttl
    case Some(m) => CancelSent(CancelSent(CancelSent(ttl, m.answers), m.authorities), m.additionals)
  }

  /** The queues without their due entries, and the message, if any, appended to the log. */
  function SendAll(o: Outbox, ttl: map<ResourceId, nat>, now: int): Outbox
  {
    var m := Outgoing(o, ttl, now);
    Outbox(
      o.questions[DueCount(o.questions, now)..],
      o.resources[DueCount(o.resources, now)..],
      o.sent + (if m.Some? then [m.value] else []))
  }

  /** The queue entries are ordered and no expired resource is queued. */
  predicate WellFormed(o: Outbox)
  {
    Sorted(o.questions) && Sorted(o.resources) &&
    forall i :: 0 <= i < |o.resources| ==> o.resources[i].item.section != Expired
  }

  /** Sending keeps the queues well formed. */
  lemma SendAllWellFormed(o: Outbox, ttl: map<ResourceId, nat>, now: int)
    requires WellFormed(o)
    ensures WellFormed(SendAll(o, ttl, now))
  {
    var r := SendAll(o, ttl, now);
    var k := DueCount(o.resources, now);
    forall i | 0 <= i < |r.resources|
      ensures r.resources[i] == o.resources[k + i]
    {
    }
  }

  /** A message is sent iff a question is due or some due resource is not cancelled. */
  lemma SendAllIff(o: Outbox, ttl: map<ResourceId, nat>, now: int)
    requires WellFormed(o)
    ensures Outgoing(o, ttl, now).Some? <==>
      (exists i :: 0 <= i < |o.questions| && o.questions[i].time <= now) ||
      (exists i :: 0 <= i < |o.resources| && o.resources[i].time <= now && !Cancelled(ttl, o.resources[i].item.resource))
  {
    AnyDue(o.questions, now);
    AnyLiveDue(o.resources, ttl, now);
  }

  /** Some entry of an ordered queue is due iff its head is. */
  lemma AnyDue<T>(q: seq<Timed<T>>, now: int)
    requires Sorted(q)
    ensures DueCount(q, now) > 0 <==> exists i :: 0 <= i < |q| && q[i].time <= now
  {
    if exists i :: 0 <= i < |q| && q[i].time <= now {
      var i :| 0 <= i < |q| && q[i].time <= now;
      assert q[0].time <= q[i].time;
    }
  }

  /** Gathering the due entries adds something iff some due resource is not cancelled. */
  lemma AnyLiveDue(q: seq<Timed<Pending>>, ttl: map<ResourceId, nat>, now: int)
    requires Sorted(q)
    ensures GatherAll(q[..DueCount(q, now)], ttl).added != {} <==>
      exists i :: 0 <= i < |q| && q[i].time <= now && !Cancelled(ttl, q[i].item.resource)
  {
    var es := q[..DueCount(q, now)];
    DueSplit(q, now);
    GatheredIff(es, ttl);
    if exists i :: 0 <= i < |q| && q[i].time <= now && !Cancelled(ttl, q[i].item.resource) {
      var i :| 0 <= i < |q| && q[i].time <= now && !Cancelled(ttl, q[i].item.resource);
      assert es[i] == q[i];
      assert q[i].item.resource in GatherAll(es, ttl).added;
    }
    if GatherAll(es, ttl).added != {} {
      var r :| r in GatherAll(es, ttl).added;
      var i :| 0 <= i < |es| && es[i].item.resource == r;
      assert q[i] == es[i];
    }
  }

  /** Everything due leaves the queues: what remains is due after `now`. */
  lemma SendAllLeavesLater(o: Outbox, ttl: map<ResourceId, nat>, now: int)
    requires WellFormed(o)
    ensures forall i :: 0 <= i < |SendAll(o, ttl, now).questions| ==> SendAll(o, ttl, now).questions[i].time > now
    ensures forall i :: 0 <= i < |SendAll(o, ttl, now).resources| ==> SendAll(o, ttl, now).resources[i].time > now
  {
    var k, m := DueCount(o.questions, now), DueCount(o.resources, now);
    DueSplit(o.questions, now);
    DueSplit(o.resources, now);
    forall i | 0 <= i < |o.questions| - k
      ensures SendAll(o, ttl, now).questions[i] == o.questions[k + i]
    {
    }
    forall i | 0 <= i < |o.resources| - m
      ensures SendAll(o, ttl, now).resources[i] == o.resources[m + i]
    {
    }
  }

  /**
   * The message carries the due questions in queue order, is an
   * authoritative response iff it has none, and carries each due resource
   * that is not cancelled exactly once, and nothing else.
   */
  lemma OutgoingContents(o: Outbox, ttl: map<ResourceId, nat>, now: int)
    requires WellFormed(o) && Outgoing(o, ttl, now).Some?
    ensures var m := Outgoing(o, ttl, now).value;
      && m.questions == Items(o.questions[..DueCount(o.questions, now)])
      && (m.response <==> |m.questions| == 0) && (m.authoritative <==> |m.questions| == 0)
      && Distinct(m.answers + m.authorities + m.additionals)
      && forall r :: r in m.answers + m.authorities + m.additionals <==>
        !Cancelled(ttl, r) && exists i :: 0 <= i < |o.resources| && o.resources[i].time <= now && o.resources[i].item.resource == r
  {
    var m := DueCount(o.resources, now);
    var es := o.resources[..m];
    DueSplit(o.resources, now);
    GatheredIff(es, ttl);
    GatheredSections(es, ttl);
    forall r | !Cancelled(ttl, r) && exists i :: 0 <= i < |o.resources| && o.resources[i].time <= now && o.resources[i].item.resource == r
      ensures exists i :: 0 <= i < |es| && es[i].item.resource == r
    {
      var i :| 0 <= i < |o.resources| && o.resources[i].time <= now && o.resources[i].item.resource == r;
      assert es[i] == o.resources[i];
    }
    forall i | 0 <= i < |es|
      ensures es[i] == o.resources[i] && o.resources[i].time <= now
    {
    }
  }

  /** After sending, no resource of the message has TTL 0, and every other TTL is kept. */
  lemma SentTtlFacts(ttl: map<ResourceId, nat>, m: Message)
    ensures SentTtl(ttl, Some(m)).Keys == ttl.Keys
    ensures forall r :: r in ttl ==>
      SentTtl(ttl, Some(m))[r] == if r in m.answers + m.authorities + m.additionals && ttl[r] == 0 then kCancelTimeToLive else ttl[r]
  {
    var t1 := CancelSent(ttl, m.answers);
    var t2 := CancelSent(t1, m.authorities);
    CancelSentFacts(ttl, m.answers);
    CancelSentFacts(t1, m.authorities);
    CancelSentFacts(t2, m.additionals);
  }

  /** Inserting an entry due no earlier than every queued one appends it. */
  lemma {:induction false} InsertLast<T>(q: seq<Timed<T>>, e: Timed<T>)
    requires forall i :: 0 <= i < |q| ==> q[i].time <= e.time
    ensures Insert(q, e) == q + [e]
  {
    if |q| > 0 {
      InsertLast(q[1..], e);
      assert q == [q[0]] + q[1..];
    }
  }

  // ---------------------------------------------------------------------
  // The loops of SendMessage and RemoveAgent

  /** The question loop: pops the due questions, in queue order. */
  method TakeDueQuestions(q: seq<Timed<QuestionId>>, now: int) returns (taken: seq<QuestionId>, rest: seq<Timed<QuestionId>>)
    ensures taken == Items(q[..DueCount(q, now)]) && rest == q[DueCount(q, now)..]
  {
    taken, rest := [], q;
    ghost var i := 0;
    while |rest| > 0 && rest[0].time <= now
      invariant 0 <= i <= |q| && rest == q[i..] && taken == Items(q[..i])
      invariant DueCount(q, now) == i + DueCount(rest, now)
      decreases |rest|
    {
      taken := taken + [rest[0].item];
      rest := rest[1..];
      i := i + 1;
    }
  }

  /** The resource loop: pops the due resources, gathering those not cancelled and not yet added. */
  method GatherDue(q: seq<Timed<Pending>>, now: int, ttl: map<ResourceId, nat>) returns (g: Gathered, rest: seq<Timed<Pending>>)
    ensures g == GatherAll(q[..DueCount(q, now)], ttl) && rest == q[DueCount(q, now)..]
  {
    g, rest := kNothingGathered, q;
    ghost var i := 0;
    while |rest| > 0 && rest[0].time <= now
      invariant 0 <= i <= |q| && rest == q[i..] && g == GatherAll(q[..i], ttl)
      invariant DueCount(q, now) == i + DueCount(rest, now)
      decreases |rest|
    {
      var e := rest[0].item;
      if e.resource in ttl && ttl[e.resource] == kCancelTimeToLive {
        // cancelled while in the queue
      } else if e.resource in g.added {
        // already added to this message
      } else {
        g := g.(added := g.added + {e.resource});
        match e.section {
          case Answer => g := g.(answers := g.answers + [e.resource]);
          case Authority => g := g.(authorities := g.authorities + [e.resource]);
          case Additional => g := g.(additionals := g.additionals + [e.resource]);
          case Expired =>
        }
      }
      assert q[..i + 1][..i] == q[..i];
      rest := rest[1..];
      i := i + 1;
    }
  }

  /** One of the TTL loops: marks each sent resource whose TTL is 0 as cancelled. */
  method MarkCancelled(ttl: map<ResourceId, nat>, rs: seq<ResourceId>) returns (t: map<ResourceId, nat>)
    ensures t == CancelSent(ttl, rs)
  {
    t := ttl;
    for i := 0 to |rs|
      invariant t == CancelSent(ttl, rs[..i])
    {
      var r := rs[i];
      if r in t && t[r] == 0 {
        t := t[r := kCancelTimeToLive];
      }
      assert rs[..i + 1][..i] == rs[..i];
    }
    assert rs[..|rs|] == rs;
  }

  /** RemoveAgent's loop: drains the wake queue, putting back every entry of another agent. */
  method DrainWithout(q: seq<Timed<AgentId>>, agent: AgentId) returns (r: seq<Timed<AgentId>>)
    requires Sorted(q)
    ensures r == Without(q, agent)
  {
    var temp := q;
    r := [];
    ghost var i := 0;
    while |temp| > 0
      invariant 0 <= i <= |q| && temp == q[i..] && r == Without(q[..i], agent)
      decreases |temp|
    {
      assert q[..i + 1][..i] == q[..i];
      if temp[0].item != agent {
        WithoutFacts(q[..i], agent);
        forall j | 0 <= j < |r|
          ensures r[j].time <= temp[0].time
        {
          assert r[j] in q[..i];
        }
        InsertLast(r, temp[0]);
        r := Insert(r, temp[0]);
      }
      temp := temp[1..];
      i := i + 1;
    }
    assert q[..i] == q;
  }

  /**
   * The body of SendMessage on the queues and the log: pops the due
   * questions and resources, and when something was added appends the
   * message and marks its resources' TTLs.
   */
  method SendDue(box: Outbox, ttl: map<ResourceId, nat>, now: int) returns (o: Outbox, ttl': map<ResourceId, nat>)
    ensures o == SendAll(box, ttl, now) && ttl' == SentTtl(ttl, Outgoing(box, ttl, now))
  {
    var questions, restQuestions := TakeDueQuestions(box.questions, now);
    var g, restResources := GatherDue(box.resources, now, ttl);
    o := box.(questions := restQuestions, resources := restResources);
    var empty := |questions| == 0 && g.added == {};
    if empty {
      return o, ttl;
    }
    var message := Message(questions, g.answers, g.authorities, g.additionals, false, false);
    if |message.questions| == 0 {
      message := message.(response := true, authoritative := true);
    }
    o := o.(sent := o.sent + [message]);
    ttl' := MarkCancelled(ttl, message.answers);
    ttl' := MarkCancelled(ttl', message.authorities);
    ttl' := MarkCancelled(ttl', message.additionals);
  }

  // ---------------------------------------------------------------------
  // The engine

  class Mdns {
    var started: bool
    /** agents_: the agents, by identity. */
    var agents: set<AgentId>
    /** instance_publishers_by_instance_full_name_. */
    var publishers: map<string, AgentId>
    var wakeQueue: seq<Timed<AgentId>>
    var questionQueue: seq<Timed<QuestionId>>
    var resourceQueue: seq<Timed<Pending>>
    /** The messages handed to the transceiver, oldest first. */
    var sent: seq<Message>

    function Box(): Outbox
      reads this
    {
      Outbox(questionQueue, resourceQueue, sent)
    }

    predicate Valid()
      reads this
    {
      WellFormed(Box()) && Sorted(wakeQueue)
    }

    constructor()
      ensures Valid() && !started && agents == {} && publishers == map[]
      ensures wakeQueue == [] && Box() == Outbox([], [], [])
    {
      started, agents, publishers := false, {}, map[];
      wakeQueue, questionQueue, resourceQueue, sent := [], [], [], [];
    }

    /** WakeAt: queues a wake-up of the agent at `when`. */
    method WakeAt(agent: AgentId, when: int)
      requires Valid()
      modifies this
      ensures Valid() && wakeQueue == Insert(old(wakeQueue), Timed(when, agent))
      ensures Box() == old(Box()) && agents == old(agents) && publishers == old(publishers) && started == old(started)
    {
      InsertSorted(wakeQueue, Timed(when, agent));
      wakeQueue := Insert(wakeQueue, Timed(when, agent));
    }

    /** SendQuestion: queues the question for `when`. */
    method SendQuestion(question: QuestionId, when: int)
      requires Valid()
      modifies this
      ensures Valid() && Box() == old(Box()).(questions := Insert(old(questionQueue), Timed(when, question)))
      ensures wakeQueue == old(wakeQueue) && agents == old(agents) && publishers == old(publishers) && started == old(started)
    {
      InsertSorted(questionQueue, Timed(when, question));
      questionQueue := Insert(questionQueue, Timed(when, question));
    }

    /**
     * SendResource: an expired resource goes to every agent (the agents it
     * is delivered to are returned) and is never queued; any other is
     * queued for its section at `when`.
     */
    method SendResource(resource: ResourceId, section: Section, when: int) returns (notified: set<AgentId>)
      requires Valid()
      modifies this
      ensures Valid()
      ensures section == Expired ==> notified == agents && Box() == old(Box())
      ensures section != Expired ==>
        notified == {} && Box() == old(Box()).(resources := Insert(old(resourceQueue), Timed(when, Pending(resource, section))))
      ensures wakeQueue == old(wakeQueue) && agents == old(agents) && publishers == old(publishers) && started == old(started)
    {
      if section == Expired {
        return agents;
      }
      var e := Timed(when, Pending(resource, section));
      InsertSorted(resourceQueue, e);
      InsertMultiset(resourceQueue, e);
      var q := Insert(resourceQueue, e);
      forall i | 0 <= i < |q|
        ensures q[i].item.section != Expired
      {
        assert q[i] in multiset(q);
        assert q[i] in resourceQueue || q[i] == e;
      }
      resourceQueue := Insert(resourceQueue, e);
      notified := {};
    }

    /**
     * SendMessage: everything due within the aggregation window after
     * `clock` leaves the queues; if a question or resource was added, the
     * message goes to the transceiver and the TTLs of its resources are
     * updated.
     */
    method SendMessage(clock: int, ttl: map<ResourceId, nat>) returns (ttl': map<ResourceId, nat>)
      requires Valid()
      modifies this
      ensures Valid()
      ensures Box() == SendAll(old(Box()), ttl, clock + kMessageAggregationWindow)
      ensures ttl' == SentTtl(ttl, Outgoing(old(Box()), ttl, clock + kMessageAggregationWindow))
      ensures wakeQueue == old(wakeQueue) && agents == old(agents) && publishers == old(publishers) && started == old(started)
    {
      var now := clock + kMessageAggregationWindow;
      SendAllWellFormed(Box(), ttl, now);
      var o;
      o, ttl' := SendDue(Box(), ttl, now);
      questionQueue, resourceQueue, sent := o.questions, o.resources, o.sent;
    }

    /** AddAgent: the agent joins; once started, a message is sent (the agent's own Start is not modelled). */
    method AddAgent(agent: AgentId, clock: int, ttl: map<ResourceId, nat>) returns (ttl': map<ResourceId, nat>)
      requires Valid()
      modifies this
      ensures Valid() && agents == old(agents) + {agent}
      ensures started ==> 
        Box() == SendAll(old(Box()), ttl, clock + kMessageAggregationWindow) && ttl' == SentTtl(ttl, Outgoing(old(Box()), ttl, clock + kMessageAggregationWindow))
      ensures !started ==> Box() == old(Box()) && ttl' == ttl
      ensures wakeQueue == old(wakeQueue) && publishers == old(publishers) && started == old(started)
    {
      agents := agents + {agent};
      ttl' := ttl;
      if started {
        ttl' := SendMessage(clock, ttl);
      }
    }

    /**
     * RemoveAgent: the agent leaves, its wake-ups are dropped, its published
     * instance (when named) is forgotten, and a message is sent in case it
     * left an epitaph.
     */
    method RemoveAgent(agent: AgentId, publishedName: string, clock: int, ttl: map<ResourceId, nat>)
      returns (ttl': map<ResourceId, nat>)
      requires Valid()
      modifies this
      ensures Valid() && agents == old(agents) - {agent}
      ensures wakeQueue == Without(old(wakeQueue), agent)
      ensures publishers == if publishedName == "" then old(publishers) else old(publishers) - {publishedName}
      ensures Box() == SendAll(old(Box()), ttl, clock + kMessageAggregationWindow)
      ensures ttl' == SentTtl(ttl, Outgoing(old(Box()), ttl, clock + kMessageAggregationWindow))
      ensures started == old(started)
    {
      agents := agents - {agent};
      WithoutFacts(wakeQueue, agent);
      wakeQueue := DrainWithout(wakeQueue, agent);
      if publishedName != "" {
        publishers := publishers - {publishedName};
      }
      ttl' := SendMessage(clock, ttl);
    }

    /**
     * PublishServiceInstance: false, with nothing changed, when an instance
     * of that full name is already published; otherwise the new responder
     * agent is added and recorded as its publisher.
     */
    method PublishServiceInstance(instanceFullName: string, responder: AgentId, clock: int, ttl: map<ResourceId, nat>)
      returns (ok: bool, ttl': map<ResourceId, nat>)
      requires Valid()
      modifies this
      ensures Valid()
      ensures ok <==> instanceFullName !in old(publishers)
      ensures !ok ==> agents == old(agents) && publishers == old(publishers) && Box() == old(Box()) && ttl' == ttl
      ensures ok ==> agents == old(agents) + {responder} && publishers == old(publishers)[instanceFullName := responder]
      ensures ok && started ==> 
        Box() == SendAll(old(Box()), ttl, clock + kMessageAggregationWindow) && ttl' == SentTtl(ttl, Outgoing(old(Box()), ttl, clock + kMessageAggregationWindow))
      ensures ok && !started ==> Box() == old(Box()) && ttl' == ttl
      ensures wakeQueue == old(wakeQueue) && started == old(started)
    {
      if instanceFullName in publishers {
        return false, ttl;
      }
      ttl' := AddAgent(responder, clock, ttl);
      publishers := publishers[instanceFullName := responder];
      ok := true;
    }

    /**
     * Start: the address responder joins, which already sends a message when
     * the engine was started before; the engine is then started iff the
     * transceiver started, and then a message is sent.
     */
    method Start(addressResponder: AgentId, transceiverStarted: bool, clock: int, ttl: map<ResourceId, nat>)
      returns (ok: bool, ttl': map<ResourceId, nat>)
      requires Valid()
      modifies this
      ensures Valid() && agents == old(agents) + {addressResponder} && started == transceiverStarted && ok == started
      ensures var now := clock + kMessageAggregationWindow;
        var box1 := if old(started) then SendAll(old(Box()), ttl, now) else old(Box());
        var ttl1 := if old(started) then SentTtl(ttl, Outgoing(old(Box()), ttl, now)) else ttl;
        (started ==> Box() == SendAll(box1, ttl1, now) && ttl' == SentTtl(ttl1, Outgoing(box1, ttl1, now))) &&
        (!started ==> Box() == box1 && ttl' == ttl1)
      ensures wakeQueue == old(wakeQueue) && publishers == old(publishers)
    {
      ttl' := AddAgent(addressResponder, clock, ttl);
      started := transceiverStarted;
      if started {
        ttl' := SendMessage(clock, ttl');
      }
      ok := started;
    }

    /** Stop: the engine stops; nothing else changes. */
    method Stop()
      modifies this
      ensures !started && agents == old(agents) && publishers == old(publishers) && Box() == old(Box())
      ensures wakeQueue == old(wakeQueue)
    {
      started := false;
    }
  }
}
